/**
 * Discovery of similar users and gathering of candidate repositories.
 *
 * Discovery samples the stargazers of the user's most-starred repositories,
 * counts how often each login turns up, keeps the logins seen at least three
 * times in `Counter.most_common` order and replaces the user's similar-user
 * rows with them.  Gathering reads the starred repositories of the most
 * overlapping similar users, aggregates them by repository id (skipping the
 * user's own stars), and stores and returns the most widely shared ones.
 */
module SimilarUsers {
  import opened Wrappers
  import opened Records
  import opened Tables
  import opened Seqs
  import opened Text
  import opened GithubClient

  /** `LIMIT 50` on the user's starred repositories. */
  const TopStarredSample: nat := 50
  /** `starred_repos[:30]`: the repositories whose stargazers are read. */
  const StargazerRepos: nat := 30
  /** The overlap a login needs to count as similar. */
  const MinOverlap: nat := 3
  /** The default of the `max_similar_users` setting. */
  const DefaultMaxSimilarUsers: nat := 50

  // ---------------------------------------------------------------------
  // Counting logins
  // ---------------------------------------------------------------------

  /** A `Counter` of logins: its keys in first-insertion order, and their counts. */
  datatype Counter = Counter(order: seq<string>, counts: map<string, nat>)

  /** `counts[login] += 1`: a login seen again is counted once more, a new one is appended with count one. */
  function Bump(c: Counter, l: string): Counter {
    if l in c.counts then c.(counts := c.counts[l := c.counts[l] + 1])
    else Counter(c.order + [l], c.counts[l := 1])
  }

  /** The counter after counting `seen` from an empty one. */
  function CounterOf(seen: seq<string>): Counter {
    if seen == [] then Counter([], map[]) else Bump(CounterOf(seen[..|seen| - 1]), seen[|seen| - 1])
  }

  lemma CounterOfSnoc(seen: seq<string>, logins: seq<string>, j: nat)
    requires j < |logins|
    ensures CounterOf(seen + logins[..j + 1]) == Bump(CounterOf(seen + logins[..j]), logins[j])
  {
    var s := seen + logins[..j + 1];
    assert s[..|s| - 1] == seen + logins[..j];
  }

  /** `for stargazer in stargazers: user_star_counts[stargazer["login"]] += 1`. */
  method CountLogins(c: Counter, ghost seen: seq<string>, logins: seq<string>) returns (r: Counter)
    requires c == CounterOf(seen)
    ensures r == CounterOf(seen + logins)
  {
    r := c;
    var j := 0;
    assert seen + logins[..0] == seen;
    while j < |logins|
      invariant 0 <= j <= |logins|
      invariant r == CounterOf(seen + logins[..j])
    {
      var l := logins[j];
      CounterOfSnoc(seen, logins, j);
      if l in r.counts {
        r := r.(counts := r.counts[l := r.counts[l] + 1]);
      } else {
        r := Counter(r.order + [l], r.counts[l := 1]);
      }
      j := j + 1;
    }
    assert logins[..j] == logins;
  }

  /** `c` counts the logins of `seen`: every login seen, in first-seen order, with its number of occurrences. */
  ghost predicate Counts(c: Counter, seen: seq<string>) {
    && c.order == Dedup(seen)
    && (forall l :: l in c.counts <==> l in seen)
    && (forall l :: l in c.counts ==> c.counts[l] == multiset(seen)[l])
  }

  /** Counting keeps the keys in first-seen order, each with the number of times it was seen. */
  lemma {:induction false} CounterOfCounts(seen: seq<string>)
    ensures Counts(CounterOf(seen), seen)
  {
    if seen != [] {
      var before := seen[..|seen| - 1];
      var l := seen[|seen| - 1];
      CounterOfCounts(before);
      assert seen == before + [l];
      assert multiset(seen) == multiset(before) + multiset{l};
      assert forall x :: x in seen <==> x in before || x == l;
    }
  }

  /** The counter's items, `(login, count)`, in key order. */
  function Items(c: Counter): seq<(string, nat)>
    requires forall l :: l in c.order ==> l in c.counts
  {
    seq(|c.order|, k requires 0 <= k < |c.order| => (c.order[k], c.counts[c.order[k]]))
  }

  /**
   * The counter of `seen` as a sequence: each distinct login once, in
   * first-seen order, paired with how often it occurs.
   */
  function Tally(seen: seq<string>): (r: seq<(string, nat)>)
    ensures Distinct(r)
    ensures forall e :: e in r ==> e.0 in seen && e.1 == multiset(seen)[e.0]
    ensures forall l :: l in seen ==> (l, multiset(seen)[l]) in r
  {
    var d := Dedup(seen);
    var r := seq(|d|, k requires 0 <= k < |d| => (d[k], multiset(seen)[d[k]]));
    forall l | l in seen ensures (l, multiset(seen)[l]) in r {
      assert l in d;
      var k :| 0 <= k < |d| && d[k] == l;
      assert r[k] == (l, multiset(seen)[l]);
    }
    r
  }

  /** A counter that counts `seen` holds the tally of `seen`. */
  lemma ItemsTally(c: Counter, seen: seq<string>)
    requires Counts(c, seen)
    ensures forall l :: l in c.order ==> l in c.counts
    ensures Items(c) == Tally(seen)
  {
  }

  // ---------------------------------------------------------------------
  // Ranking
  // ---------------------------------------------------------------------

  function CountKey(e: (string, nat)): real {
    e.1 as real
  }

  /**
   * `Counter.most_common(n)`: the items by count, highest first, equal counts
   * in insertion order (the selection is stable), cut to `n`.
   */
  function MostCommon(items: seq<(string, nat)>, n: nat): seq<(string, nat)> {
    Take(SortDesc(items, CountKey), n)
  }

  /** An entry of the returned list; the percentage is kept exact (no rounding to two places). */
  datatype SimilarEntry = SimilarEntry(username: string, overlapCount: nat, overlapPercentage: real)

  /** `overlap_count / len(starred_repos) * 100`. */
  function Percentage(count: nat, reposRead: nat): real
    requires reposRead > 0
  {
    count as real / reposRead as real * 100.0
  }

  function Entry(item: (string, nat), reposRead: nat): SimilarEntry
    requires reposRead > 0
  {
    SimilarEntry(item.0, item.1, Percentage(item.1, reposRead))
  }

  /** The entries for the items with an overlap of at least three, in item order. */
  function Qualifying(top: seq<(string, nat)>, reposRead: nat): (r: seq<SimilarEntry>)
    requires reposRead > 0
    ensures |r| <= |top|
    ensures forall k :: 0 <= k < |r| ==> r[k].overlapCount >= MinOverlap
    ensures forall e :: e in r ==> exists m :: 0 <= m < |top| && top[m].1 >= MinOverlap && e == Entry(top[m], reposRead)
    ensures forall m :: 0 <= m < |top| && top[m].1 >= MinOverlap ==> Entry(top[m], reposRead) in r
  {
    if top == [] then []
    else
      var init := top[..|top| - 1];
      var last := top[|top| - 1];
      var q := Qualifying(init, reposRead);
      assert forall m :: 0 <= m < |init| ==> init[m] == top[m];
      q + (if last.1 >= MinOverlap then [Entry(last, reposRead)] else [])
  }

  /** The list discovery returns for the logins `seen` when `reposRead` repositories were read. */
  function Ranked(seen: seq<string>, reposRead: nat, maxSimilar: nat): seq<SimilarEntry>
    requires reposRead > 0
  {
    Take(Qualifying(MostCommon(Tally(seen), 2 * maxSimilar), reposRead), maxSimilar)
  }

  /** The filtering loop over `most_common(...)` and the cut to `max_similar_users`. */
  method RankSimilar(top: seq<(string, nat)>, reposRead: nat, maxSimilar: nat) returns (similar: seq<SimilarEntry>)
    requires reposRead > 0
    ensures similar == Take(Qualifying(top, reposRead), maxSimilar)
  {
    similar := [];
    var i := 0;
    while i < |top|
      invariant 0 <= i <= |top|
      invariant similar == Qualifying(top[..i], reposRead)
    {
      assert top[..i + 1][..i] == top[..i];
      if top[i].1 >= MinOverlap {
        similar := similar + [Entry(top[i], reposRead)];
      }
      i := i + 1;
    }
    assert top[..i] == top;
    similar := Take(similar, maxSimilar);
  }

  lemma {:induction false} QualifyingAppend(a: seq<(string, nat)>, b: seq<(string, nat)>, reposRead: nat)
    requires reposRead > 0
    ensures Qualifying(a + b, reposRead) == Qualifying(a, reposRead) + Qualifying(b, reposRead)
    decreases |b|
  {
    if b == [] {
      assert a + b == a;
    } else {
      var bi := b[..|b| - 1];
      assert (a + b)[..|a + b| - 1] == a + bi;
      QualifyingAppend(a, bi, reposRead);
    }
  }

  lemma {:induction false} QualifyingAll(s: seq<(string, nat)>, reposRead: nat)
    requires reposRead > 0
    requires forall k :: 0 <= k < |s| ==> s[k].1 >= MinOverlap
    ensures |Qualifying(s, reposRead)| == |s|
  {
    if s != [] {
      QualifyingAll(s[..|s| - 1], reposRead);
    }
  }

  lemma {:induction false} QualifyingNone(s: seq<(string, nat)>, reposRead: nat)
    requires reposRead > 0
    requires forall k :: 0 <= k < |s| ==> s[k].1 < MinOverlap
    ensures Qualifying(s, reposRead) == []
  {
    if s != [] {
      QualifyingNone(s[..|s| - 1], reposRead);
    }
  }

  /**
   * Reading only `most_common(2 * max_similar_users)` loses nothing: on
   * items sorted by count, the qualifying ones form a prefix, so the cut to
   * `max_similar_users` keeps the same entries as filtering all of them.
   */
  lemma RankWindowHarmless(s: seq<(string, nat)>, reposRead: nat, maxSimilar: nat)
    requires reposRead > 0
    requires SortedDesc(s, CountKey)
    ensures Take(Qualifying(Take(s, 2 * maxSimilar), reposRead), maxSimilar)
      == Take(Qualifying(s, reposRead), maxSimilar)
  {
    if |s| > 2 * maxSimilar {
      var p := s[..2 * maxSimilar];
      var q := s[2 * maxSimilar..];
      assert s == p + q;
      QualifyingAppend(p, q, reposRead);
      var qp := Qualifying(p, reposRead);
      if |qp| < maxSimilar {
        QualifyingCutoff(s, 2 * maxSimilar, reposRead);
        assert Qualifying(s, reposRead) == qp + [];
      }
    }
  }

  /** On items sorted by count, once a prefix holds an item below the threshold, nothing after it qualifies. */
  lemma QualifyingCutoff(s: seq<(string, nat)>, n: nat, reposRead: nat)
    requires reposRead > 0 && SortedDesc(s, CountKey)
    requires n <= |s| && |Qualifying(s[..n], reposRead)| < n
    ensures Qualifying(s[n..], reposRead) == []
  {
    var p, q := s[..n], s[n..];
    if forall k :: 0 <= k < |p| ==> p[k].1 >= MinOverlap {
      QualifyingAll(p, reposRead);
    }
    var m :| 0 <= m < |p| && p[m].1 < MinOverlap;
    forall k | 0 <= k < |q| ensures q[k].1 < MinOverlap {
      assert s[m] == p[m] && s[n + k] == q[k];
      assert CountKey(s[m]) >= CountKey(s[n + k]);
    }
    QualifyingNone(q, reposRead);
  }

  /** Highest overlap first. */
  predicate ByOverlap(r: seq<SimilarEntry>) {
    forall i, j :: 0 <= i < j < |r| ==> r[i].overlapCount >= r[j].overlapCount
  }

  /** On items sorted by count, the qualifying entries are sorted by overlap. */
  lemma {:induction false} QualifyingSorted(s: seq<(string, nat)>, reposRead: nat)
    requires reposRead > 0
    requires SortedDesc(s, CountKey)
    ensures ByOverlap(Qualifying(s, reposRead))
  {
    if s != [] {
      var init: seq<(string, nat)> := s[..|s| - 1];
      assert SortedDesc(init, CountKey) by {
        forall i, j | 0 <= i < j < |init| ensures CountKey(init[i]) >= CountKey(init[j]) {
          assert init[i] == s[i] && init[j] == s[j];
        }
      }
      QualifyingSorted(init, reposRead);
      var q := Qualifying(init, reposRead);
      var r := Qualifying(s, reposRead);
      forall i, j | 0 <= i < j < |r| ensures r[i].overlapCount >= r[j].overlapCount {
        if j >= |q| {
          assert r[i] == q[i] && q[i] in q;
          assert r[j] == Entry(s[|s| - 1], reposRead);
          var m :| 0 <= m < |init| && init[m].1 >= MinOverlap && q[i] == Entry(init[m], reposRead);
          assert s[m] == init[m];
          assert CountKey(s[m]) >= CountKey(s[|s| - 1]);
          assert s[m].1 >= s[|s| - 1].1;
        } else {
          assert r[i] == q[i] && r[j] == q[j];
          assert q[i].overlapCount >= q[j].overlapCount;
        }
      }
    }
  }

  predicate DistinctNames(s: seq<(string, nat)>) {
    forall i, j :: 0 <= i < j < |s| ==> s[i].0 != s[j].0
  }

  predicate DistinctUsers(s: seq<SimilarEntry>) {
    forall i, j :: 0 <= i < j < |s| ==> s[i].username != s[j].username
  }

  lemma {:induction false} QualifyingDistinct(s: seq<(string, nat)>, reposRead: nat)
    requires reposRead > 0
    requires DistinctNames(s)
    ensures DistinctUsers(Qualifying(s, reposRead))
  {
    if s != [] {
      var init: seq<(string, nat)> := s[..|s| - 1];
      QualifyingDistinct(init, reposRead);
      var q := Qualifying(init, reposRead);
      var r := Qualifying(s, reposRead);
      forall i, j | 0 <= i < j < |r| ensures r[i].username != r[j].username {
        if j >= |q| {
          assert q[i] in q;
          var m :| 0 <= m < |init| && init[m].1 >= MinOverlap && q[i] == Entry(init[m], reposRead);
          assert s[m] == init[m];
        }
      }
    }
  }

  /** The tally, sorted by count, names every login once. */
  lemma SortedTallyDistinct(seen: seq<string>)
    ensures DistinctNames(SortDesc(Tally(seen), CountKey))
  {
    var t := Tally(seen);
    var s := SortDesc(t, CountKey);
    SortDescDistinct(t, CountKey);
    SortDescFacts(t, CountKey);
    forall i, j | 0 <= i < j < |s| ensures s[i].0 != s[j].0 {
      assert s[i] in t && s[j] in t;
    }
  }

  /**
   * Every entry is for a login of `seen` met at least three times, with its
   * exact count and its percentage of the repositories read.
   */
  ghost predicate EntriesOf(r: seq<SimilarEntry>, seen: seq<string>, reposRead: nat)
    requires reposRead > 0
  {
    forall e :: e in r ==>
      && e.overlapCount >= MinOverlap
      && e.username in seen
      && e.overlapCount == multiset(seen)[e.username]
      && e.overlapPercentage == Percentage(e.overlapCount, reposRead)
  }

  /** The full ranking, before any cut, is exact and complete. */
  lemma QualifiedTallyExact(seen: seq<string>, reposRead: nat)
    requires reposRead > 0
    ensures EntriesOf(Qualifying(SortDesc(Tally(seen), CountKey), reposRead), seen, reposRead)
    ensures forall l :: l in seen && multiset(seen)[l] >= MinOverlap ==>
      Entry((l, multiset(seen)[l]), reposRead) in Qualifying(SortDesc(Tally(seen), CountKey), reposRead)
  {
    var t := Tally(seen);
    var s := SortDesc(t, CountKey);
    SortDescFacts(t, CountKey);
    var q := Qualifying(s, reposRead);
    forall e | e in q
      ensures e.overlapCount == multiset(seen)[e.username] && e.username in seen
    {
      var m :| 0 <= m < |s| && s[m].1 >= MinOverlap && e == Entry(s[m], reposRead);
      assert s[m] in t;
    }
    forall l | l in seen && multiset(seen)[l] >= MinOverlap
      ensures Entry((l, multiset(seen)[l]), reposRead) in q
    {
      var item := (l, multiset(seen)[l]);
      assert item in s;
      var m :| 0 <= m < |s| && s[m] == item;
    }
  }

  /** A prefix keeps the order, the exactness and the distinctness of the entries. */
  lemma TakeEntries(q: seq<SimilarEntry>, n: nat, seen: seq<string>, reposRead: nat)
    requires reposRead > 0
    requires EntriesOf(q, seen, reposRead) && ByOverlap(q) && DistinctUsers(q)
    ensures EntriesOf(Take(q, n), seen, reposRead) && ByOverlap(Take(q, n)) && DistinctUsers(Take(q, n))
  {
    var r := Take(q, n);
    assert forall e :: e in r ==> e in q;
  }

  /**
   * What discovery returns: at most `maxSimilar` entries, each for a login
   * seen at least three times with its exact count and percentage, by
   * overlap highest first, no login twice; and when fewer than `maxSimilar`
   * come back, every login seen at least three times is among them.
   */
  lemma RankedFacts(seen: seq<string>, reposRead: nat, maxSimilar: nat)
    requires reposRead > 0
    ensures |Ranked(seen, reposRead, maxSimilar)| <= maxSimilar
    ensures EntriesOf(Ranked(seen, reposRead, maxSimilar), seen, reposRead)
    ensures ByOverlap(Ranked(seen, reposRead, maxSimilar))
    ensures DistinctUsers(Ranked(seen, reposRead, maxSimilar))
    ensures |Ranked(seen, reposRead, maxSimilar)| < maxSimilar ==>
      forall l :: l in seen && multiset(seen)[l] >= MinOverlap ==>
        Entry((l, multiset(seen)[l]), reposRead) in Ranked(seen, reposRead, maxSimilar)
  {
    var t := Tally(seen);
    var s := SortDesc(t, CountKey);
    SortDescSorted(t, CountKey);
    RankWindowHarmless(s, reposRead, maxSimilar);
    var q := Qualifying(s, reposRead);
    QualifyingSorted(s, reposRead);
    SortedTallyDistinct(seen);
    QualifyingDistinct(s, reposRead);
    QualifiedTallyExact(seen, reposRead);
    TakeEntries(q, maxSimilar, seen, reposRead);
  }

  lemma RankedDistinct(seen: seq<string>, reposRead: nat, maxSimilar: nat)
    requires reposRead > 0
    ensures DistinctUsers(Ranked(seen, reposRead, maxSimilar))
  {
    RankedFacts(seen, reposRead, maxSimilar);
  }

  /**
   * When no repository lists a stargazer twice, a login's percentage is at
   * most the share of the read repositories whose stargazers were sampled:
   * the divisor counts every repository read, not just the sampled ones.
   */
  lemma PercentageBound(lists: seq<seq<string>>, l: string, reposRead: nat)
    requires reposRead > 0
    requires forall k :: 0 <= k < |lists| ==> Distinct(lists[k])
    ensures Percentage(multiset(Flatten(lists))[l], reposRead) <= Percentage(|lists|, reposRead)
  {
    FlattenMultiplicity(lists, l);
    PercentageMonotone(multiset(Flatten(lists))[l], |lists|, reposRead);
  }

  lemma PercentageMonotone(a: nat, b: nat, n: nat)
    requires n > 0 && a <= b
    ensures Percentage(a, n) <= Percentage(b, n)
  {
    var x := a as real / n as real;
    var y := b as real / n as real;
    assert x * n as real == a as real;
    assert y * n as real == b as real;
    assert (y - x) * n as real >= 0.0;
  }

  /** With fifty repositories read and thirty sampled, even a login in every sample scores sixty percent. */
  lemma FullOverlapIsSixtyPercent(lists: seq<seq<string>>, l: string)
    requires |lists| == StargazerRepos
    requires forall k :: 0 <= k < |lists| ==> Distinct(lists[k])
    ensures Percentage(multiset(Flatten(lists))[l], TopStarredSample) <= 60.0
    ensures Percentage(|lists|, TopStarredSample) == 60.0
  {
    PercentageBound(lists, l, TopStarredSample);
  }

  /**
   * With the repositories actually sampled as the divisor, a percentage is
   * at most 100, and a login in every sampled list scores exactly 100.
   */
  lemma SampledPercentageBound(lists: seq<seq<string>>, l: string)
    requires |lists| > 0
    requires forall k :: 0 <= k < |lists| ==> Distinct(lists[k])
    ensures Percentage(multiset(Flatten(lists))[l], |lists|) <= 100.0
    ensures Percentage(|lists|, |lists|) == 100.0
  {
    PercentageBound(lists, l, |lists|);
    WholeIsHundred(|lists|);
  }

  lemma WholeIsHundred(n: nat)
    requires n > 0
    ensures Percentage(n, n) == 100.0
  {
    var x := n as real / n as real;
    assert x * n as real == n as real;
    assert (x - 1.0) * n as real == 0.0;
  }

  // ---------------------------------------------------------------------
  // Stored rows
  // ---------------------------------------------------------------------

  /** The rows discovery writes: every one with `similar_github_id = 0`. */
  function SimilarRows(userId: int, entries: seq<SimilarEntry>): (r: seq<SimilarUser>)
    ensures |r| == |entries|
    ensures forall k :: 0 <= k < |r| ==> r[k] == SimilarUser(userId, 0, entries[k].username,
      entries[k].overlapCount, entries[k].overlapPercentage)
  {
    seq(|entries|, k requires 0 <= k < |entries| => SimilarUser(userId, 0, entries[k].username,
      entries[k].overlapCount, entries[k].overlapPercentage))
  }

  /**
   * Under the declared constraint, unique on `(user_id, similar_github_id)`,
   * any two rows written together clash, so a discovery that finds two or
   * more similar users can never be committed.
   */
  lemma DeclaredConstraintRejectsRows(userId: int, entries: seq<SimilarEntry>)
    requires |entries| >= 2
    ensures !UniqueBy(SimilarRows(userId, entries), SimilarDeclaredKey)
  {
    var r := SimilarRows(userId, entries);
    assert SimilarDeclaredKey(r[0]) == SimilarDeclaredKey(r[1]);
  }

  /** Under the constraint keyed by username, the rows of distinct users always commit. */
  lemma SimilarRowsUnique(userId: int, entries: seq<SimilarEntry>)
    requires DistinctUsers(entries)
    ensures UniqueBy(SimilarRows(userId, entries), SimilarKey)
  {
  }

  // ---------------------------------------------------------------------
  // Discovery
  // ---------------------------------------------------------------------

  /** `owner, name = full_name.split("/")`: exactly two parts, or a `ValueError`. */
  function SplitFullName(fullName: string): (r: Result<(string, string)>)
    ensures r.Ok? <==> |Split(fullName, "/")| == 2
    ensures r.Ok? ==> Join("/", [r.value.0, r.value.1]) == fullName
  {
    var parts := Split(fullName, "/");
    JoinSplit(fullName, "/");
    if |parts| == 2 then
      assert parts == [parts[0], parts[1]];
      Ok((parts[0], parts[1]))
    else if |parts| < 2 then Err("not enough values to unpack (expected 2, got 1)")
    else Err("too many values to unpack (expected 2)")
  }

  /** A name made of an owner and a repository without slashes splits back into them. */
  lemma FullNameRoundTrip(owner: string, name: string)
    requires '/' !in owner && '/' !in name
    ensures SplitFullName(owner + "/" + name) == Ok((owner, name))
  {
    SplitJoin([owner, name], "/");
    assert Join("/", [owner, name]) == owner + "/" + name;
  }

  /** The outcome of reading stargazer lists, and the stargazer cache afterwards. */
  datatype Sampled = Sampled(lists: Result<seq<seq<string>>>, cache: Option<map<string, seq<string>>>)

  /**
   * The stargazer lists of `repos`, read one repository after another
   * through the cache; a malformed name or a failed request ends the reading
   * with that error, and cache writes made before it stay.
   */
  function SampleStargazers(cache: Option<map<string, seq<string>>>, api: GitHubApi, token: string, repos: seq<StarredRepo>): Sampled
    decreases |repos|
  {
    if repos == [] then Sampled(Ok([]), cache)
    else
      var names := SplitFullName(repos[0].fullName);
      if names.Err? then Sampled(Err(names.message), cache)
      else
        var key := StargazersKey(names.value.0, names.value.1);
        var fetch := api.stargazers(token, names.value.0, names.value.1);
        var first := StargazersResult(cache, key, fetch);
        var after := StargazersCacheAfter(cache, key, fetch);
        if first.Err? then Sampled(Err(first.message), after)
        else
          var rest := SampleStargazers(after, api, token, repos[1..]);
          Sampled(Prepend([first.value], rest.lists), rest.cache)
  }

  function PrependSampled(lists: seq<seq<string>>, s: Sampled): Sampled {
    Sampled(Prepend(lists, s.lists), s.cache)
  }

  /** The reading from the `i`-th repository on. */
  function SampleFrom(cache: Option<map<string, seq<string>>>, api: GitHubApi, token: string,
                      repos: seq<StarredRepo>, i: nat): Sampled
    requires i <= |repos|
  {
    SampleStargazers(cache, api, token, repos[i..])
  }

  /** A step of the reading loop on a malformed full name: the reading ends with the split's error. */
  lemma SampleStepBadName(cache: Option<map<string, seq<string>>>, api: GitHubApi, token: string,
                          repos: seq<StarredRepo>, i: nat, lists: seq<seq<string>>)
    requires i < |repos| && SplitFullName(repos[i].fullName).Err?
    ensures PrependSampled(lists, SampleFrom(cache, api, token, repos, i))
      == Sampled(Err(SplitFullName(repos[i].fullName).message), cache)
  {
    assert repos[i..][0] == repos[i];
  }

  /** A step of the reading loop whose request raises: the reading ends with that error and the cache as it stands. */
  lemma SampleStepFailed(cache: Option<map<string, seq<string>>>, api: GitHubApi, token: string,
                         repos: seq<StarredRepo>, i: nat, lists: seq<seq<string>>,
                         owner: string, name: string, message: string)
    requires i < |repos| && SplitFullName(repos[i].fullName) == Ok((owner, name))
    requires StargazersResult(cache, StargazersKey(owner, name), api.stargazers(token, owner, name)) == Err(message)
    ensures PrependSampled(lists, SampleFrom(cache, api, token, repos, i))
      == Sampled(Err(message), StargazersCacheAfter(cache, StargazersKey(owner, name), api.stargazers(token, owner, name)))
  {
    assert repos[i..][0] == repos[i];
  }

  /** A step of the reading loop that reads a list: the list joins those read so far and the reading goes on. */
  lemma SampleStepRead(cache: Option<map<string, seq<string>>>, api: GitHubApi, token: string,
                       repos: seq<StarredRepo>, i: nat, lists: seq<seq<string>>,
                       owner: string, name: string, stargazers: seq<string>)
    requires i < |repos| && SplitFullName(repos[i].fullName) == Ok((owner, name))
    requires StargazersResult(cache, StargazersKey(owner, name), api.stargazers(token, owner, name)) == Ok(stargazers)
    ensures PrependSampled(lists, SampleFrom(cache, api, token, repos, i))
      == PrependSampled(lists + [stargazers],
           SampleFrom(StargazersCacheAfter(cache, StargazersKey(owner, name), api.stargazers(token, owner, name)),
                      api, token, repos, i + 1))
  {
    assert repos[i..][0] == repos[i];
    assert repos[i..][1..] == repos[i + 1..];
    var after := StargazersCacheAfter(cache, StargazersKey(owner, name), api.stargazers(token, owner, name));
    PrependPrepend(lists, [stargazers], SampleStargazers(after, api, token, repos[i + 1..]).lists);
  }

  /** The user's starred rows by stars, most first, NULLs last, cut to fifty. */
  function TopStarred(starred: seq<StarredRepo>, userId: int): seq<StarredRepo> {
    Take(ByStarsDesc(OfUser(starred, StarredKey, userId)), TopStarredSample)
  }

  /** What discovery returns, given the starred table and the stargazer cache. */
  function DiscoverOutcome(starred: seq<StarredRepo>, userId: int, cache: Option<map<string, seq<string>>>,
                           api: GitHubApi, token: string, maxSimilar: nat): Result<seq<SimilarEntry>>
  {
    var top := TopStarred(starred, userId);
    if top == [] then Ok([])
    else
      var s := SampleStargazers(cache, api, token, Take(top, StargazerRepos));
      if s.lists.Err? then Err(s.lists.message)
      else Ok(Ranked(Flatten(s.lists.value), |top|, maxSimilar))
  }

  /** The stargazer cache after discovery. */
  function DiscoverCacheAfter(starred: seq<StarredRepo>, userId: int, cache: Option<map<string, seq<string>>>,
                              api: GitHubApi, token: string): Option<map<string, seq<string>>>
  {
    var top := TopStarred(starred, userId);
    if top == [] then cache else SampleStargazers(cache, api, token, Take(top, StargazerRepos)).cache
  }

  function StargazerCacheOf(redis: RedisCache?): Option<map<string, seq<string>>>
    reads redis
  {
    if redis == null then None else Some(redis.stargazers)
  }

  /**
   * The loop over the sampled repositories: split each full name and read
   * its stargazers through the client.  The first error ends the loop and is
   * returned.  Counting the logins of each list is done afterwards by
   * `CountAll`; since an error discards the counts, the outcome is that of
   * counting inside the loop.
   */
  method ReadStargazers(client: GitHubClient, sample: seq<StarredRepo>) returns (r: Result<seq<seq<string>>>)
    modifies Present(client.redis)`stargazers
    ensures r == SampleStargazers(old(client.StargazerCache()), client.api, client.accessToken, sample).lists
    ensures client.StargazerCache() == SampleStargazers(old(client.StargazerCache()), client.api, client.accessToken, sample).cache
  {
    var lists: seq<seq<string>> := [];
    ghost var start := SampleStargazers(client.StargazerCache(), client.api, client.accessToken, sample);
    assert sample[0..] == sample;
    assert SampleFrom(client.StargazerCache(), client.api, client.accessToken, sample, 0) == start;
    var i := 0;
    while i < |sample|
      invariant 0 <= i <= |sample|
      invariant PrependSampled(lists, SampleFrom(client.StargazerCache(), client.api, client.accessToken, sample, i)) == start
    {
      ghost var cache := client.StargazerCache();
      var names := SplitFullName(sample[i].fullName);
      if names.Err? {
        SampleStepBadName(cache, client.api, client.accessToken, sample, i, lists);
        return Err(names.message);
      }
      var stargazers := client.GetRepoStargazers(names.value.0, names.value.1);
      if stargazers.Err? {
        SampleStepFailed(cache, client.api, client.accessToken, sample, i, lists,
                         names.value.0, names.value.1, stargazers.message);
        return Err(stargazers.message);
      }
      SampleStepRead(cache, client.api, client.accessToken, sample, i, lists,
                     names.value.0, names.value.1, stargazers.value);
      lists := lists + [stargazers.value];
      i := i + 1;
    }
    assert lists + [] == lists;
    r := Ok(lists);
  }

  /** `user_star_counts[login] += 1` for every login of every list, in reading order. */
  method CountAll(lists: seq<seq<string>>) returns (counter: Counter)
    ensures counter == CounterOf(Flatten(lists))
  {
    counter := Counter([], map[]);
    var i := 0;
    while i < |lists|
      invariant 0 <= i <= |lists|
      invariant counter == CounterOf(Flatten(lists[..i]))
    {
      counter := CountLogins(counter, Flatten(lists[..i]), lists[i]);
      FlattenAppend(lists[..i], lists[i]);
      assert lists[..i + 1] == lists[..i] + [lists[i]];
      i := i + 1;
    }
    assert lists[..i] == lists;
  }

  /**
   * `discover_similar_users`: with no starred repositories, nothing is read
   * or written and the list is empty; otherwise the stargazers of the first
   * thirty of the fifty most-starred repositories are counted, the similar
   * users are ranked, and the user's similar-user rows are replaced by
   * them.  An error while reading leaves the rows alone.
   */
  method DiscoverSimilarUsers(db: Database, redis: RedisCache?, api: GitHubApi, userId: int,
                              accessToken: string, maxSimilar: nat) returns (r: Result<seq<SimilarEntry>>)
    requires db.Valid()
    modifies db`similar, Present(redis)`stargazers
    ensures db.Valid()
    ensures r == DiscoverOutcome(db.starred, userId, old(StargazerCacheOf(redis)), api, accessToken, maxSimilar)
    ensures StargazerCacheOf(redis) == DiscoverCacheAfter(db.starred, userId, old(StargazerCacheOf(redis)), api, accessToken)
    ensures db.similar == if r.Ok? && TopStarred(db.starred, userId) != []
      then Replaced(old(db.similar), SimilarKey, userId, SimilarRows(userId, r.value))
      else old(db.similar)
    ensures db.candidates == old(db.candidates) && db.recommendations == old(db.recommendations)
    ensures db.users == old(db.users) && db.starred == old(db.starred) && db.jobs == old(db.jobs)
    ensures UserStarredCacheOf(redis) == old(UserStarredCacheOf(redis))
  {
    var top := TopStarred(db.starred, userId);
    if top == [] {
      return Ok([]);
    }
    var client := new GitHubClient(accessToken, redis, api);
    assert client.StargazerCache() == old(StargazerCacheOf(redis));
    ghost var userStarred := UserStarredCacheOf(redis);
    var counted := ReadStargazers(client, Take(top, StargazerRepos));
    assert UserStarredCacheOf(redis) == userStarred;
    if counted.Err? {
      return Err(counted.message);
    }
    var similar := StoreSimilar(db, userId, counted.value, |top|, maxSimilar);
    r := Ok(similar);
  }

  /**
   * The end of discovery: rank the counted logins and replace the user's
   * similar-user rows with the ranking; the rows name distinct users, so the
   * commit succeeds.
   */
  method StoreSimilar(db: Database, userId: int, lists: seq<seq<string>>,
                      reposRead: nat, maxSimilar: nat) returns (similar: seq<SimilarEntry>)
    requires db.Valid() && reposRead > 0
    modifies db`similar
    ensures db.Valid()
    ensures similar == Ranked(Flatten(lists), reposRead, maxSimilar)
    ensures db.similar == Replaced(old(db.similar), SimilarKey, userId, SimilarRows(userId, similar))
    ensures db.candidates == old(db.candidates) && db.recommendations == old(db.recommendations)
    ensures db.users == old(db.users) && db.starred == old(db.starred) && db.jobs == old(db.jobs)
  {
    var counter := CountAll(lists);
    ghost var seen := Flatten(lists);
    CounterOfCounts(seen);
    ItemsTally(counter, seen);
    similar := RankSimilar(MostCommon(Items(counter), 2 * maxSimilar), reposRead, maxSimilar);
    RankedDistinct(seen, reposRead, maxSimilar);
    var rows := SimilarRows(userId, similar);
    SimilarRowsUnique(userId, similar);
    var ok := db.ReplaceSimilar(userId, rows);
    assert ok;
  }

  // ---------------------------------------------------------------------
  // Discovery under the declared constraint
  // ---------------------------------------------------------------------

  /** The `IntegrityError` the commit raises when two rows share `(user_id, similar_github_id)`. */
  const DeclaredKeyClash: string :=
    "(sqlite3.IntegrityError) UNIQUE constraint failed: similar_users.user_id, similar_users.similar_github_id"

  /** The table the commit at the end of discovery would leave, keyed as declared. */
  function DeclaredReplacement(similarBefore: seq<SimilarUser>, userId: int, entries: seq<SimilarEntry>): seq<SimilarUser> {
    Replaced(similarBefore, SimilarDeclaredKey, userId, SimilarRows(userId, entries))
  }

  /**
   * `discover_similar_users` as written, against a table that enforces the
   * declared constraint: the commit raises when the replaced table repeats
   * a `(user_id, similar_github_id)` pair, and the session rolls the delete
   * back with the inserts.
   */
  function DiscoverAsWritten(similarBefore: seq<SimilarUser>, starred: seq<StarredRepo>, userId: int,
                             cache: Option<map<string, seq<string>>>, api: GitHubApi, token: string,
                             maxSimilar: nat): Result<seq<SimilarEntry>>
  {
    var r := DiscoverOutcome(starred, userId, cache, api, token, maxSimilar);
    if r.Ok? && TopStarred(starred, userId) != []
       && !UniqueBy(DeclaredReplacement(similarBefore, userId, r.value), SimilarDeclaredKey)
    then Err(DeclaredKeyClash)
    else r
  }

  /** The similar-users table after `discover_similar_users` as written. */
  function SimilarAfterAsWritten(similarBefore: seq<SimilarUser>, starred: seq<StarredRepo>, userId: int,
                                 cache: Option<map<string, seq<string>>>, api: GitHubApi, token: string,
                                 maxSimilar: nat): seq<SimilarUser>
  {
    var r := DiscoverAsWritten(similarBefore, starred, userId, cache, api, token, maxSimilar);
    if r.Ok? && TopStarred(starred, userId) != [] then DeclaredReplacement(similarBefore, userId, r.value)
    else similarBefore
  }

  /**
   * As written, a discovery that ranks two or more similar users raises
   * the constraint's `IntegrityError` and leaves the table as it was.
   */
  lemma DiscoveryFailsAsWritten(similarBefore: seq<SimilarUser>, starred: seq<StarredRepo>, userId: int,
                                cache: Option<map<string, seq<string>>>, api: GitHubApi, token: string, maxSimilar: nat)
    requires DiscoverOutcome(starred, userId, cache, api, token, maxSimilar).Ok?
    requires |DiscoverOutcome(starred, userId, cache, api, token, maxSimilar).value| >= 2
    ensures DiscoverAsWritten(similarBefore, starred, userId, cache, api, token, maxSimilar) == Err(DeclaredKeyClash)
    ensures SimilarAfterAsWritten(similarBefore, starred, userId, cache, api, token, maxSimilar) == similarBefore
  {
    var entries := DiscoverOutcome(starred, userId, cache, api, token, maxSimilar).value;
    assert TopStarred(starred, userId) != [];
    DeclaredReplacementClashes(similarBefore, userId, entries);
  }

  /** Two or more rows, all with `similar_github_id = 0`, break the declared constraint wherever they land. */
  lemma DeclaredReplacementClashes(similarBefore: seq<SimilarUser>, userId: int, entries: seq<SimilarEntry>)
    requires |entries| >= 2
    ensures !UniqueBy(DeclaredReplacement(similarBefore, userId, entries), SimilarDeclaredKey)
  {
    var rest := WithoutUser(similarBefore, SimilarDeclaredKey, userId);
    var rows := SimilarRows(userId, entries);
    var t := DeclaredReplacement(similarBefore, userId, entries);
    assert t == rest + rows;
    assert t[|rest|] == rows[0] && t[|rest| + 1] == rows[1];
    assert SimilarDeclaredKey(t[|rest|]) == SimilarDeclaredKey(t[|rest| + 1]);
  }

  /** With at most one similar user there is nothing to clash, and discovery as written commits like the model's. */
  lemma DiscoveryCommitsAsWrittenWhenAlone(similarBefore: seq<SimilarUser>, starred: seq<StarredRepo>, userId: int,
                                           cache: Option<map<string, seq<string>>>, api: GitHubApi, token: string,
                                           maxSimilar: nat)
    requires UniqueBy(similarBefore, SimilarDeclaredKey)
    requires var r := DiscoverOutcome(starred, userId, cache, api, token, maxSimilar); r.Err? || |r.value| <= 1
    ensures DiscoverAsWritten(similarBefore, starred, userId, cache, api, token, maxSimilar)
      == DiscoverOutcome(starred, userId, cache, api, token, maxSimilar)
  {
    var r := DiscoverOutcome(starred, userId, cache, api, token, maxSimilar);
    if r.Ok? && TopStarred(starred, userId) != [] {
      var rest := WithoutUser(similarBefore, SimilarDeclaredKey, userId);
      var rows := SimilarRows(userId, r.value);
      var t := DeclaredReplacement(similarBefore, userId, r.value);
      assert t == rest + rows;
      WithoutUserKeepsUnique(similarBefore, SimilarDeclaredKey, userId);
      forall i, j | 0 <= i < j < |t| ensures SimilarDeclaredKey(t[i]) != SimilarDeclaredKey(t[j]) {
        if j >= |rest| {
          assert t[j] == rows[j - |rest|];
          if i < |rest| {
            assert SimilarDeclaredKey(t[i]).0 != userId;
          }
        } else {
          assert t[i] == rest[i] && t[j] == rest[j];
        }
      }
    }
  }

  // ---------------------------------------------------------------------
  // Gathering candidates
  // ---------------------------------------------------------------------

  /** `LIMIT 20` on the similar users, by overlap. */
  const SimilarUsersRead: nat := 20
  /** `candidates[:200]` are stored. */
  const CandidatesStored: nat := 200
  /** `candidates[:100]` are returned. */
  const CandidatesReturned: nat := 100

  function OverlapKey(r: SimilarUser): real {
    r.overlapCount as real
  }

  /** The user's similar users by overlap, highest first, ties in table order, cut to twenty. */
  function SimilarRead(similar: seq<SimilarUser>, userId: int): seq<SimilarUser> {
    Take(SortDesc(OfUser(similar, SimilarKey, userId), OverlapKey), SimilarUsersRead)
  }

  /**
   * A value of `candidate_counts`: the repository as first seen (its
   * id, name, description, topics, language and star count), how many
   * similar users starred it, and who they were, in visiting order.
   */
  datatype Candidate = Candidate(repo: GhRepo, sourceCount: nat, sourceUsers: seq<string>)

  /** The position of the candidate for repository `id`, if there is one. */
  function IndexOf(cs: seq<Candidate>, id: int): (r: Option<nat>)
    ensures r.Some? ==> r.value < |cs| && cs[r.value].repo.id == id
    ensures r.Some? ==> forall k :: 0 <= k < r.value ==> cs[k].repo.id != id
    ensures r.None? ==> forall k :: 0 <= k < |cs| ==> cs[k].repo.id != id
  {
    if cs == [] then None
    else if cs[0].repo.id == id then Some(0)
    else match IndexOf(cs[1..], id)
      case None => None
      case Some(k) => Some(k + 1)
  }

  /**
   * One repository starred by one similar user: skipped when the user
   * starred it too, counted once more when already collected, and collected
   * with this user as its first source otherwise.
   */
  function Add(cs: seq<Candidate>, sighting: (string, GhRepo), starred: set<int>): seq<Candidate> {
    var (login, repo) := sighting;
    if repo.id in starred then cs
    else match IndexOf(cs, repo.id)
      case Some(k) => cs[k := Candidate(cs[k].repo, cs[k].sourceCount + 1, cs[k].sourceUsers + [login])]
      case None => cs + [Candidate(repo, 1, [login])]
  }

  /** The candidates collected from a sequence of (login, repository) sightings. */
  function Aggregate(sightings: seq<(string, GhRepo)>, starred: set<int>): seq<Candidate> {
    if sightings == [] then []
    else Add(Aggregate(sightings[..|sightings| - 1], starred), sightings[|sightings| - 1], starred)
  }

  /** Each of `repos` paired with the login that starred it. */
  function Tag(login: string, repos: seq<GhRepo>): (r: seq<(string, GhRepo)>)
    ensures |r| == |repos| && forall k :: 0 <= k < |r| ==> r[k] == (login, repos[k])
  {
    seq(|repos|, k requires 0 <= k < |repos| => (login, repos[k]))
  }

  /** The sightings of the visited users' lists, user by user, each list in order. */
  function Sightings(logins: seq<string>, lists: seq<seq<GhRepo>>): seq<(string, GhRepo)>
    requires |logins| == |lists|
  {
    if lists == [] then []
    else Sightings(logins[..|logins| - 1], lists[..|lists| - 1]) + Tag(logins[|logins| - 1], lists[|lists| - 1])
  }

  /** No two candidates are for the same repository. */
  predicate UniqueIds(cs: seq<Candidate>) {
    forall i, j :: 0 <= i < j < |cs| ==> cs[i].repo.id != cs[j].repo.id
  }

  /** The logins that starred repository `id`, in the order they were seen. */
  function SeenBy(sightings: seq<(string, GhRepo)>, id: int): seq<string> {
    if sightings == [] then []
    else
      var last := sightings[|sightings| - 1];
      SeenBy(sightings[..|sightings| - 1], id) + (if last.1.id == id then [last.0] else [])
  }

  /** The first repository record seen with id `id`. */
  function FirstSeen(sightings: seq<(string, GhRepo)>, id: int): Option<GhRepo> {
    if sightings == [] then None
    else
      var first := FirstSeen(sightings[..|sightings| - 1], id);
      var last := sightings[|sightings| - 1];
      if first.Some? then first else if last.1.id == id then Some(last.1) else None
  }

  /** The contributors recorded for repository `id` (none when it was not collected). */
  function UsersOf(cs: seq<Candidate>, id: int): seq<string> {
    match IndexOf(cs, id)
    case None => []
    case Some(k) => cs[k].sourceUsers
  }

  /** The record kept for repository `id`, if it was collected. */
  function RecordOf(cs: seq<Candidate>, id: int): Option<GhRepo> {
    match IndexOf(cs, id)
    case None => None
    case Some(k) => Some(cs[k].repo)
  }

  /** Every candidate is well formed: not starred, counted once per contributor. */
  ghost predicate WellCounted(cs: seq<Candidate>, starred: set<int>) {
    forall c :: c in cs ==> c.repo.id !in starred && c.sourceCount == |c.sourceUsers| && c.sourceCount >= 1
  }

  lemma IndexOfUpdate(cs: seq<Candidate>, k: nat, c: Candidate, id: int)
    requires k < |cs| && c.repo.id == cs[k].repo.id
    ensures IndexOf(cs[k := c], id) == IndexOf(cs, id)
  {
    var u := cs[k := c];
    var a := IndexOf(u, id);
    var b := IndexOf(cs, id);
    assert forall m :: 0 <= m < |cs| ==> u[m].repo.id == cs[m].repo.id;
    if a.Some? && b.Some? {
      assert !(a.value < b.value) && !(b.value < a.value);
    }
  }

  lemma IndexOfAppend(cs: seq<Candidate>, c: Candidate, id: int)
    requires IndexOf(cs, c.repo.id).None?
    ensures IndexOf(cs + [c], id) == if IndexOf(cs, id).Some? then IndexOf(cs, id)
      else if c.repo.id == id then Some(|cs|) else None
  {
    var u := cs + [c];
    var a := IndexOf(u, id);
    var b := IndexOf(cs, id);
    assert forall m :: 0 <= m < |cs| ==> u[m] == cs[m];
    if a.Some? && b.Some? {
      assert !(a.value < b.value) && !(b.value < a.value);
    }
    if b.None? && c.repo.id == id {
      assert u[|cs|] == c;
    }
  }

  /** One sighting keeps one well-formed candidate per repository. */
  lemma {:induction false} AddShape(cs: seq<Candidate>, sighting: (string, GhRepo), starred: set<int>)
    requires UniqueIds(cs) && WellCounted(cs, starred)
    ensures UniqueIds(Add(cs, sighting, starred)) && WellCounted(Add(cs, sighting, starred), starred)
  {
    var (login, repo) := sighting;
    var r := Add(cs, sighting, starred);
    if repo.id !in starred {
      match IndexOf(cs, repo.id)
      case Some(k) =>
        var c := Candidate(cs[k].repo, cs[k].sourceCount + 1, cs[k].sourceUsers + [login]);
        assert r == cs[k := c];
        assert cs[k] in cs;
        assert forall x :: x in r ==> x in cs || x == c;
      case None =>
        var c := Candidate(repo, 1, [login]);
        assert r == cs + [c];
        assert forall x :: x in r ==> x in cs || x == c;
    }
  }

  /** One sighting adds its login to the contributors of its repository, and only there. */
  lemma {:induction false} AddUsers(cs: seq<Candidate>, sighting: (string, GhRepo), starred: set<int>, id: int)
    ensures UsersOf(Add(cs, sighting, starred), id) == UsersOf(cs, id)
      + (if sighting.1.id == id && id !in starred then [sighting.0] else [])
  {
    var (login, repo) := sighting;
    if repo.id !in starred {
      match IndexOf(cs, repo.id)
      case Some(k) =>
        var c := Candidate(cs[k].repo, cs[k].sourceCount + 1, cs[k].sourceUsers + [login]);
        IndexOfUpdate(cs, k, c, id);
      case None =>
        IndexOfAppend(cs, Candidate(repo, 1, [login]), id);
    }
  }

  /** One sighting records its repository when it is new, and changes no other record. */
  lemma {:induction false} AddRecord(cs: seq<Candidate>, sighting: (string, GhRepo), starred: set<int>, id: int)
    ensures RecordOf(Add(cs, sighting, starred), id) == (if RecordOf(cs, id).Some? then RecordOf(cs, id)
      else if sighting.1.id == id && id !in starred then Some(sighting.1) else None)
  {
    var (login, repo) := sighting;
    if repo.id !in starred {
      match IndexOf(cs, repo.id)
      case Some(k) =>
        var c := Candidate(cs[k].repo, cs[k].sourceCount + 1, cs[k].sourceUsers + [login]);
        IndexOfUpdate(cs, k, c, id);
      case None =>
        IndexOfAppend(cs, Candidate(repo, 1, [login]), id);
    }
  }

  /**
   * What the aggregation keeps: one candidate per collected repository, none
   * of them starred by the user, each counted once per contributor; the
   * contributors of a repository are exactly the users whose lists held it,
   * in visiting order; the record kept is the first one seen; and every
   * repository seen that the user did not star is collected.
   */
  lemma {:induction false} AggregateFacts(sightings: seq<(string, GhRepo)>, starred: set<int>, id: int)
    ensures UniqueIds(Aggregate(sightings, starred))
    ensures WellCounted(Aggregate(sightings, starred), starred)
    ensures id !in starred ==> UsersOf(Aggregate(sightings, starred), id) == SeenBy(sightings, id)
    ensures id in starred ==> RecordOf(Aggregate(sightings, starred), id) == None
    ensures id !in starred ==> RecordOf(Aggregate(sightings, starred), id) == FirstSeen(sightings, id)
  {
    if sightings != [] {
      var init := sightings[..|sightings| - 1];
      AggregateFacts(init, starred, id);
      AddShape(Aggregate(init, starred), sightings[|sightings| - 1], starred);
      AddUsers(Aggregate(init, starred), sightings[|sightings| - 1], starred, id);
      AddRecord(Aggregate(init, starred), sightings[|sightings| - 1], starred, id);
    }
  }

  /** The key of `sorted(..., key=lambda x: x["source_count"], reverse=True)`. */
  function SourceKey(c: Candidate): real {
    c.sourceCount as real
  }

  /** Sorting by source count keeps one candidate per repository. */
  lemma SortedIdsUnique(cs: seq<Candidate>)
    requires UniqueIds(cs)
    ensures UniqueIds(SortDesc(cs, SourceKey))
  {
    var s := SortDesc(cs, SourceKey);
    assert Distinct(cs) by {
      forall i, j | 0 <= i < j < |cs| ensures cs[i] != cs[j] {
        assert cs[i].repo.id != cs[j].repo.id;
      }
    }
    SortDescDistinct(cs, SourceKey);
    SortDescFacts(cs, SourceKey);
    forall i, j | 0 <= i < j < |s| ensures s[i].repo.id != s[j].repo.id {
      assert s[i] in cs && s[j] in cs;
      var a :| 0 <= a < |cs| && cs[a] == s[i];
      var b :| 0 <= b < |cs| && cs[b] == s[j];
      assert a != b;
    }
  }

  /** The row stored for a candidate; topics are stored as given (`[]` when the payload had none). */
  function CandidateRow(userId: int, c: Candidate): CandidateRepo {
    CandidateRepo(userId, c.repo.id, c.repo.fullName, c.repo.description, Some(TopicsOrEmpty(c.repo)),
      c.repo.language, c.repo.stargazersCount, c.sourceCount)
  }

  function CandidateRows(userId: int, cs: seq<Candidate>): (r: seq<CandidateRepo>)
    ensures |r| == |cs| && forall k :: 0 <= k < |r| ==> r[k] == CandidateRow(userId, cs[k])
  {
    seq(|cs|, k requires 0 <= k < |cs| => CandidateRow(userId, cs[k]))
  }

  /** Candidates for distinct repositories give rows that satisfy the table's constraint. */
  lemma CandidateRowsUnique(userId: int, cs: seq<Candidate>)
    requires UniqueIds(cs)
    ensures UniqueBy(CandidateRows(userId, cs), CandidateKey)
  {
  }

  /** The outcome of reading the similar users' stars, and the cache afterwards. */
  datatype Collected = Collected(lists: Result<seq<seq<GhRepo>>>, cache: Option<map<string, seq<GhRepo>>>)

  /**
   * The starred lists of `logins`, read one user after another through the
   * cache (at most two pages each); a failed request ends the reading.
   */
  function CollectStarred(cache: Option<map<string, seq<GhRepo>>>, api: GitHubApi, token: string, logins: seq<string>): Collected
    decreases |logins|
  {
    if logins == [] then Collected(Ok([]), cache)
    else
      var key := UserStarredKey(logins[0]);
      var pages := UserPages(api, token, logins[0]);
      var first := UserStarredResult(cache, key, pages, SimilarUserPages);
      var after := UserStarredCacheAfter(cache, key, pages, SimilarUserPages);
      if first.Err? then Collected(Err(first.message), after)
      else
        var rest := CollectStarred(after, api, token, logins[1..]);
        Collected(Prepend([first.value], rest.lists), rest.cache)
  }

  function PrependCollected(lists: seq<seq<GhRepo>>, c: Collected): Collected {
    Collected(Prepend(lists, c.lists), c.cache)
  }

  /** One step of the reading loop, as `CollectStarred` unfolds it. */
  lemma CollectStep(cache: Option<map<string, seq<GhRepo>>>, api: GitHubApi, token: string,
                    logins: seq<string>, i: nat, lists: seq<seq<GhRepo>>)
    requires i < |logins|
    ensures var key := UserStarredKey(logins[i]);
      var pages := UserPages(api, token, logins[i]);
      var first := UserStarredResult(cache, key, pages, SimilarUserPages);
      var after := UserStarredCacheAfter(cache, key, pages, SimilarUserPages);
      var here := PrependCollected(lists, CollectStarred(cache, api, token, logins[i..]));
      if first.Err? then here == Collected(Err(first.message), after)
      else here == PrependCollected(lists + [first.value], CollectStarred(after, api, token, logins[i + 1..]))
  {
    assert logins[i..][0] == logins[i];
    assert logins[i..][1..] == logins[i + 1..];
    var key := UserStarredKey(logins[i]);
    var pages := UserPages(api, token, logins[i]);
    var first := UserStarredResult(cache, key, pages, SimilarUserPages);
    var after := UserStarredCacheAfter(cache, key, pages, SimilarUserPages);
    if first.Ok? {
      PrependPrepend(lists, [first.value], CollectStarred(after, api, token, logins[i + 1..]).lists);
    }
  }

  function Logins(users: seq<SimilarUser>): (r: seq<string>)
    ensures |r| == |users| && forall k :: 0 <= k < |r| ==> r[k] == users[k].similarGithubUsername
  {
    seq(|users|, k requires 0 <= k < |users| => users[k].similarGithubUsername)
  }

  function UserStarredCacheOf(redis: RedisCache?): Option<map<string, seq<GhRepo>>>
    reads redis
  {
    if redis == null then None else Some(redis.userStarred)
  }

  /**
   * All candidates gathering collects, most widely shared first (ties in
   * first-seen order); empty when the user has no similar users.
   */
  function GatherRanking(similar: seq<SimilarUser>, userId: int, cache: Option<map<string, seq<GhRepo>>>,
                         api: GitHubApi, token: string, starred: set<int>): Result<seq<Candidate>>
  {
    var users := SimilarRead(similar, userId);
    if users == [] then Ok([])
    else
      var c := CollectStarred(cache, api, token, Logins(users));
      if c.lists.Err? then Err(c.lists.message)
      else
        assert |c.lists.value| == |users| by {
          CollectedLength(cache, api, token, Logins(users));
        }
        Ok(SortDesc(Aggregate(Sightings(Logins(users), c.lists.value), starred), SourceKey))
  }

  lemma {:induction false} CollectedLength(cache: Option<map<string, seq<GhRepo>>>, api: GitHubApi, token: string, logins: seq<string>)
    ensures CollectStarred(cache, api, token, logins).lists.Ok? ==> |CollectStarred(cache, api, token, logins).lists.value| == |logins|
    decreases |logins|
  {
    if logins != [] {
      var key := UserStarredKey(logins[0]);
      var pages := UserPages(api, token, logins[0]);
      var after := UserStarredCacheAfter(cache, key, pages, SimilarUserPages);
      CollectedLength(after, api, token, logins[1..]);
    }
  }

  /** The user-starred cache after gathering. */
  function GatherCacheAfter(similar: seq<SimilarUser>, userId: int, cache: Option<map<string, seq<GhRepo>>>,
                            api: GitHubApi, token: string): Option<map<string, seq<GhRepo>>>
  {
    var users := SimilarRead(similar, userId);
    if users == [] then cache else CollectStarred(cache, api, token, Logins(users)).cache
  }

  /** The loop over the similar users: read each one's starred repositories through the client. */
  method ReadStarredOfSimilar(client: GitHubClient, logins: seq<string>) returns (r: Result<seq<seq<GhRepo>>>)
    modifies Present(client.redis)`userStarred
    ensures r == CollectStarred(old(client.UserStarredCache()), client.api, client.accessToken, logins).lists
    ensures client.UserStarredCache() == CollectStarred(old(client.UserStarredCache()), client.api, client.accessToken, logins).cache
  {
    var lists: seq<seq<GhRepo>> := [];
    ghost var start := CollectStarred(client.UserStarredCache(), client.api, client.accessToken, logins);
    assert logins[0..] == logins;
    var i := 0;
    while i < |logins|
      invariant 0 <= i <= |logins|
      invariant PrependCollected(lists, CollectStarred(client.UserStarredCache(), client.api, client.accessToken, logins[i..])) == start
    {
      CollectStep(client.UserStarredCache(), client.api, client.accessToken, logins, i, lists);
      var repos := client.GetUserStarred(logins[i], SimilarUserPages);
      if repos.Err? {
        return Err(repos.message);
      }
      lists := lists + [repos.value];
      i := i + 1;
    }
    assert lists + [] == lists;
    r := Ok(lists);
  }

  /** The dictionary `candidate_counts`, with its keys in insertion order, holds the candidates `cs`. */
  ghost predicate Holds(order: seq<int>, counts: map<int, Candidate>, cs: seq<Candidate>) {
    && |order| == |cs|
    && (forall k :: 0 <= k < |cs| ==> order[k] == cs[k].repo.id && order[k] in counts && counts[order[k]] == cs[k])
    && (forall id :: id in counts ==> id in order)
  }

  /** The dictionary update for one sighting matches `Add`. */
  lemma HoldsStep(order: seq<int>, counts: map<int, Candidate>, cs: seq<Candidate>, sighting: (string, GhRepo),
                  starred: set<int>, order': seq<int>, counts': map<int, Candidate>)
    requires Holds(order, counts, cs) && UniqueIds(cs) && WellCounted(cs, starred)
    requires var (login, repo) := sighting;
      if repo.id in starred then order' == order && counts' == counts
      else if repo.id in counts then order' == order && counts' == counts[repo.id := Candidate(
        counts[repo.id].repo, counts[repo.id].sourceCount + 1, counts[repo.id].sourceUsers + [login])]
      else order' == order + [repo.id] && counts' == counts[repo.id := Candidate(repo, 1, [login])]
    ensures Holds(order', counts', Add(cs, sighting, starred))
    ensures UniqueIds(Add(cs, sighting, starred)) && WellCounted(Add(cs, sighting, starred), starred)
  {
    var (login, repo) := sighting;
    AddShape(cs, sighting, starred);
    if repo.id !in starred {
      var idx := IndexOf(cs, repo.id);
      if repo.id in counts {
        var k :| 0 <= k < |order| && order[k] == repo.id;
        assert cs[k].repo.id == repo.id;
        assert idx.Some? && idx.value == k;
        HoldsBump(order, counts, cs, k, Candidate(cs[k].repo, cs[k].sourceCount + 1, cs[k].sourceUsers + [login]));
      } else {
        assert idx.None?;
        HoldsInsert(order, counts, cs, Candidate(repo, 1, [login]));
      }
    }
  }

  /** Replacing a collected candidate in place keeps the dictionary in step. */
  lemma HoldsBump(order: seq<int>, counts: map<int, Candidate>, cs: seq<Candidate>, k: nat, c: Candidate)
    requires Holds(order, counts, cs) && UniqueIds(cs) && k < |cs| && c.repo.id == cs[k].repo.id
    ensures Holds(order, counts[order[k] := c], cs[k := c])
  {
    var counts' := counts[order[k] := c];
    forall m | 0 <= m < |cs| ensures counts'[order[m]] == cs[k := c][m] {
      if m < k {
        assert cs[m].repo.id != cs[k].repo.id;
      } else if k < m {
        assert cs[k].repo.id != cs[m].repo.id;
      }
    }
  }

  /** Adding a candidate for a new repository appends its key. */
  lemma HoldsInsert(order: seq<int>, counts: map<int, Candidate>, cs: seq<Candidate>, c: Candidate)
    requires Holds(order, counts, cs) && c.repo.id !in counts
    ensures Holds(order + [c.repo.id], counts[c.repo.id := c], cs + [c])
  {
  }

  /** The inner loop: add one similar user's repositories to the dictionary. */
  method AddRepos(order: seq<int>, counts: map<int, Candidate>, ghost cs: seq<Candidate>, login: string,
                  repos: seq<GhRepo>, starred: set<int>) returns (order': seq<int>, counts': map<int, Candidate>)
    requires Holds(order, counts, cs) && UniqueIds(cs) && WellCounted(cs, starred)
    ensures Holds(order', counts', AddAll(cs, Tag(login, repos), starred))
    ensures UniqueIds(AddAll(cs, Tag(login, repos), starred)) && WellCounted(AddAll(cs, Tag(login, repos), starred), starred)
  {
    order', counts' := order, counts;
    ghost var acc := cs;
    var j := 0;
    assert Tag(login, repos[..0]) == [];
    while j < |repos|
      invariant 0 <= j <= |repos|
      invariant acc == AddAll(cs, Tag(login, repos[..j]), starred)
      invariant Holds(order', counts', acc) && UniqueIds(acc) && WellCounted(acc, starred)
    {
      order', counts' := AddRepo(order', counts', acc, login, repos[j], starred);
      AddAllSnoc(cs, login, repos, j, starred);
      acc := Add(acc, (login, repos[j]), starred);
      j := j + 1;
    }
    assert repos[..j] == repos;
  }

  /** One iteration of the inner loop: the dictionary update for one repository, as `Add` states it. */
  method AddRepo(order: seq<int>, counts: map<int, Candidate>, ghost cs: seq<Candidate>, login: string,
                 repo: GhRepo, starred: set<int>) returns (order': seq<int>, counts': map<int, Candidate>)
    requires Holds(order, counts, cs) && UniqueIds(cs) && WellCounted(cs, starred)
    ensures Holds(order', counts', Add(cs, (login, repo), starred))
    ensures UniqueIds(Add(cs, (login, repo), starred)) && WellCounted(Add(cs, (login, repo), starred), starred)
  {
    order', counts' := order, counts;
    if repo.id in starred {
    } else if repo.id in counts {
      var c := counts[repo.id];
      counts' := counts[repo.id := Candidate(c.repo, c.sourceCount + 1, c.sourceUsers + [login])];
    } else {
      counts' := counts[repo.id := Candidate(repo, 1, [login])];
      order' := order + [repo.id];
    }
    HoldsStep(order, counts, cs, (login, repo), starred, order', counts');
  }

  /** `Add` applied to each sighting in turn. */
  function AddAll(cs: seq<Candidate>, sightings: seq<(string, GhRepo)>, starred: set<int>): seq<Candidate> {
    if sightings == [] then cs
    else Add(AddAll(cs, sightings[..|sightings| - 1], starred), sightings[|sightings| - 1], starred)
  }

  lemma AddAllSnoc(cs: seq<Candidate>, login: string, repos: seq<GhRepo>, j: nat, starred: set<int>)
    requires j < |repos|
    ensures AddAll(cs, Tag(login, repos[..j + 1]), starred)
      == Add(AddAll(cs, Tag(login, repos[..j]), starred), (login, repos[j]), starred)
  {
    var t := Tag(login, repos[..j + 1]);
    assert t[..|t| - 1] == Tag(login, repos[..j]);
  }

  /** Aggregating a concatenation continues from the first part's candidates. */
  lemma {:induction false} AggregateAppend(a: seq<(string, GhRepo)>, b: seq<(string, GhRepo)>, starred: set<int>)
    ensures Aggregate(a + b, starred) == AddAll(Aggregate(a, starred), b, starred)
    decreases |b|
  {
    if b == [] {
      assert a + b == a;
    } else {
      var bi := b[..|b| - 1];
      assert (a + b)[..|a + b| - 1] == a + bi;
      AggregateAppend(a, bi, starred);
    }
  }

  /** The values of the dictionary, in key insertion order. */
  function Values(order: seq<int>, counts: map<int, Candidate>): seq<Candidate>
    requires forall k :: 0 <= k < |order| ==> order[k] in counts
  {
    seq(|order|, k requires 0 <= k < |order| => counts[order[k]])
  }

  /**
   * The outer loop of `gather_candidate_repos`: every repository of every
   * similar user's list, in visiting order, into the dictionary; the values
   * come out as the aggregate of all sightings.
   */
  method CollectCandidates(logins: seq<string>, lists: seq<seq<GhRepo>>, starred: set<int>) returns (cs: seq<Candidate>)
    requires |logins| == |lists|
    ensures cs == Aggregate(Sightings(logins, lists), starred)
  {
    var order: seq<int> := [];
    var counts: map<int, Candidate> := map[];
    var i := 0;
    while i < |lists|
      invariant 0 <= i <= |lists|
      invariant Holds(order, counts, Aggregate(Sightings(logins[..i], lists[..i]), starred))
      invariant UniqueIds(Aggregate(Sightings(logins[..i], lists[..i]), starred))
      invariant WellCounted(Aggregate(Sightings(logins[..i], lists[..i]), starred), starred)
    {
      ghost var done := Sightings(logins[..i], lists[..i]);
      order, counts := AddRepos(order, counts, Aggregate(done, starred), logins[i], lists[i], starred);
      AggregateAppend(done, Tag(logins[i], lists[i]), starred);
      assert logins[..i + 1][..i] == logins[..i] && lists[..i + 1][..i] == lists[..i];
      i := i + 1;
    }
    assert logins[..i] == logins && lists[..i] == lists;
    cs := Values(order, counts);
  }

  /**
   * `gather_candidate_repos`: with no similar users nothing is read or
   * written and the list is empty; otherwise the starred lists of the twenty
   * most overlapping similar users are aggregated, sorted by source count,
   * the first two hundred replace the user's candidate rows, and the first
   * hundred are returned.  A failed request leaves the rows alone.
   */
  method GatherCandidateRepos(db: Database, redis: RedisCache?, api: GitHubApi, userId: int,
                              accessToken: string, starredIds: set<int>) returns (r: Result<seq<Candidate>>)
    requires db.Valid()
    modifies db`candidates, Present(redis)`userStarred
    ensures db.Valid()
    ensures var ranking := GatherRanking(db.similar, userId, old(UserStarredCacheOf(redis)), api, accessToken, starredIds);
      r == if ranking.Ok? then Ok(Take(ranking.value, CandidatesReturned)) else Err(ranking.message)
    ensures UserStarredCacheOf(redis) == GatherCacheAfter(db.similar, userId, old(UserStarredCacheOf(redis)), api, accessToken)
    ensures var ranking := GatherRanking(db.similar, userId, old(UserStarredCacheOf(redis)), api, accessToken, starredIds);
      db.candidates == if ranking.Ok? && SimilarRead(db.similar, userId) != []
        then Replaced(old(db.candidates), CandidateKey, userId, CandidateRows(userId, Take(ranking.value, CandidatesStored)))
        else old(db.candidates)
  {
    var users := SimilarRead(db.similar, userId);
    if users == [] {
      return Ok([]);
    }
    var client := new GitHubClient(accessToken, redis, api);
    assert client.UserStarredCache() == old(UserStarredCacheOf(redis));
    var logins := Logins(users);
    var read := ReadStarredOfSimilar(client, logins);
    if read.Err? {
      return Err(read.message);
    }
    CollectedLength(old(UserStarredCacheOf(redis)), api, accessToken, logins);
    var ranked := StoreCandidates(db, userId, logins, read.value, starredIds);
    r := Ok(Take(ranked, CandidatesReturned));
  }

  /** The end of gathering: aggregate, sort by source count and store the first two hundred. */
  method StoreCandidates(db: Database, userId: int, logins: seq<string>, lists: seq<seq<GhRepo>>,
                         starredIds: set<int>) returns (ranked: seq<Candidate>)
    requires db.Valid() && |logins| == |lists|
    modifies db`candidates
    ensures db.Valid()
    ensures ranked == SortDesc(Aggregate(Sightings(logins, lists), starredIds), SourceKey)
    ensures db.candidates == Replaced(old(db.candidates), CandidateKey, userId, CandidateRows(userId, Take(ranked, CandidatesStored)))
  {
    var cs := CollectCandidates(logins, lists, starredIds);
    ranked := SortDesc(cs, SourceKey);
    AggregateFacts(Sightings(logins, lists), starredIds, 0);
    SortedIdsUnique(cs);
    var kept := Take(ranked, CandidatesStored);
    assert UniqueIds(kept);
    CandidateRowsUnique(userId, kept);
    var ok := db.ReplaceCandidates(userId, CandidateRows(userId, kept));
    assert ok;
  }
}
