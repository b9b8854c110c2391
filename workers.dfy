/** The worker directory (src/pages/Workers.jsx): the available workers,
    highest rated first, narrowed by a search term, with only the top three
    shown on the default view. */
module Workers {
  import opened Wrappers
  import opened Strings
  import Seqs

  /** A row of `users` with its joined `worker_profile`. A missing text or
      list is `None`; `rating` is `worker_profile?.average_rating`, whole
      numbers standing for the stored decimals. */
  datatype Worker = Worker(id: string, display_name: Option<string>, job_title: Option<string>,
                           category: Option<string>, location: Option<string>, bio: Option<string>,
                           skills: Option<seq<string>>, is_worker: Option<bool>, vacation_mode: Option<bool>,
                           rating: Option<int>)

  /** `a.worker_profile?.average_rating || 0`. */
  function Rating(w: Worker): (r: int)
    ensures w.rating.None? ==> r == 0
    ensures w.rating.Some? ==> r == w.rating.value
  {
    OrZero(w.rating)
  }

  function RatingKey(): Worker -> int {
    (w: Worker) => Rating(w)
  }

  /** The row filter as written: `.eq('is_worker', true)` and
      `.neq('vacation_mode', true)` in SQL, where a comparison with NULL is
      not true, so a row whose `vacation_mode` is NULL is dropped too. */
  predicate AvailableAsWritten(w: Worker) {
    w.is_worker == Some(true) && w.vacation_mode == Some(false)
  }

  /** The filter the comment beside it describes: NULL and false both count
      as not on vacation. */
  predicate Available(w: Worker) {
    w.is_worker == Some(true) && w.vacation_mode != Some(true)
  }

  /** The category constraint applies only for a present category other
      than `'all'`. */
  predicate InCategory(w: Worker, category: Option<string>) {
    category.None? || category.value == "" || category.value == "all" || w.category == category
  }

  function KeepAsWritten(category: Option<string>): Worker -> bool {
    (w: Worker) => AvailableAsWritten(w) && InCategory(w, category)
  }

  function Keep(category: Option<string>): Worker -> bool {
    (w: Worker) => Available(w) && InCategory(w, category)
  }

  /** The rows the query returns, as written and as intended. */
  function QueryAsWritten(table: seq<Worker>, category: Option<string>): seq<Worker> {
    Seqs.Filter(table, KeepAsWritten(category))
  }

  function Query(table: seq<Worker>, category: Option<string>): seq<Worker> {
    Seqs.Filter(table, Keep(category))
  }

  /** A worker who never set the vacation flag is hidden by the query as
      written. */
  lemma NullVacationHidden(w: Worker)
    requires w.is_worker == Some(true) && w.vacation_mode.None? && w.category == Some("plumbing")
    ensures QueryAsWritten([w], Some("plumbing")) == []
    ensures Query([w], Some("plumbing")) == [w]
  {
    assert [w][1..] == [];
  }

  /** The intended query keeps exactly the workers who are not on vacation,
      and, with a category, only those of it. */
  lemma QuerySpec(table: seq<Worker>, category: Option<string>)
    ensures forall k :: 0 <= k < |Query(table, category)| ==>
              var w := Query(table, category)[k];
              w.is_worker == Some(true) && w.vacation_mode != Some(true) && InCategory(w, category)
    ensures forall k :: 0 <= k < |table| && Available(table[k]) && InCategory(table[k], category) ==>
              table[k] in Query(table, category)
    ensures category.Some? && category.value != "" && category.value != "all" ==>
              forall k :: 0 <= k < |Query(table, category)| ==> Query(table, category)[k].category == category
  {
  }

  /** Stable insertion of `w` into a list sorted by rating, before the
      workers it ties with (it came first in the input). */
  function Insert(w: Worker, s: seq<Worker>): (r: seq<Worker>)
    ensures multiset(r) == multiset(s) + multiset{w}
    ensures |r| == |s| + 1
    decreases |s|
  {
    if s == [] || Rating(w) >= Rating(s[0]) then [w] + s
    else
      assert s == [s[0]] + s[1..];
      [s[0]] + Insert(w, s[1..])
  }

  /** `sort((a, b) => ratingB - ratingA)`: highest rating first; the sort is
      stable, so equal ratings keep the query's order. */
  function SortByRating(s: seq<Worker>): (r: seq<Worker>)
    ensures multiset(r) == multiset(s)
    ensures |r| == |s|
    decreases |s|
  {
    if s == [] then []
    else
      assert s == [s[0]] + s[1..];
      Insert(s[0], SortByRating(s[1..]))
  }

  /** What the insertion holds: `w` and the workers of `s`. */
  lemma InsertMembers(w: Worker, s: seq<Worker>)
    ensures forall x :: x in Insert(w, s) <==> x == w || x in s
  {
    var r := Insert(w, s);
    forall x ensures x in r <==> x == w || x in s {
      assert x in r <==> x in multiset(r);
      assert x in s <==> x in multiset(s);
    }
  }

  /** Inserting keeps the list sorted. */
  lemma {:induction false} InsertSorted(w: Worker, s: seq<Worker>)
    requires Seqs.SortedDesc(s, RatingKey())
    ensures Seqs.SortedDesc(Insert(w, s), RatingKey())
    decreases |s|
  {
    if s != [] && Rating(w) < Rating(s[0]) {
      Seqs.SortedDescTail(s, RatingKey());
      InsertSorted(w, s[1..]);
      var rest := Insert(w, s[1..]);
      InsertMembers(w, s[1..]);
      forall k | 0 <= k < |rest| ensures RatingKey()(rest[k]) <= RatingKey()(s[0]) {
        assert rest[k] in rest;
        if rest[k] != w {
          assert rest[k] in s[1..];
          var m :| 0 <= m < |s[1..]| && s[1..][m] == rest[k];
          assert s[m + 1] == rest[k];
        }
      }
      assert Insert(w, s) == [s[0]] + rest;
      Seqs.SortedDescCons(s[0], rest, RatingKey());
    }
  }

  /** The sorted list is in non-increasing order of rating, a missing rating
      counting as 0, and holds the same workers as often as the input. */
  lemma {:induction false} SortByRatingSorted(s: seq<Worker>)
    ensures Seqs.SortedDesc(SortByRating(s), RatingKey())
    ensures multiset(SortByRating(s)) == multiset(s)
    decreases |s|
  {
    if s != [] {
      SortByRatingSorted(s[1..]);
      InsertSorted(s[0], SortByRating(s[1..]));
    }
  }

  /** The workers rated exactly `v`. */
  function RatedAs(v: int): Worker -> bool {
    (w: Worker) => Rating(w) == v
  }

  /** Insertion puts `w` after every worker rated above it and before every
      worker it ties with: among the workers rated `v`, it comes first and the
      others keep their order. */
  lemma {:induction false} InsertStable(w: Worker, s: seq<Worker>, v: int)
    ensures Seqs.Filter(Insert(w, s), RatedAs(v))
            == (if Rating(w) == v then [w] else []) + Seqs.Filter(s, RatedAs(v))
    decreases |s|
  {
    var p := RatedAs(v);
    if s == [] || Rating(w) >= Rating(s[0]) {
      assert ([w] + s)[1..] == s;
    } else {
      InsertStable(w, s[1..], v);
      var rest := Insert(w, s[1..]);
      assert ([s[0]] + rest)[1..] == rest;
      assert Seqs.Filter(s, p) == (if p(s[0]) then [s[0]] else []) + Seqs.Filter(s[1..], p);
    }
  }

  /** The sort is stable: for every rating, the workers with that rating
      appear in the same order as in the input. */
  lemma {:induction false} SortByRatingStable(s: seq<Worker>, v: int)
    ensures Seqs.Filter(SortByRating(s), RatedAs(v)) == Seqs.Filter(s, RatedAs(v))
    decreases |s|
  {
    if s != [] {
      SortByRatingStable(s[1..], v);
      InsertStable(s[0], SortByRating(s[1..]), v);
      var p := RatedAs(v);
      assert Seqs.Filter(s, p) == (if p(s[0]) then [s[0]] else []) + Seqs.Filter(s[1..], p);
    }
  }

  /** One optional text searched: `field?.toLowerCase().includes(term)`. */
  predicate FieldMatches(field: Option<string>, term: string) {
    field.Some? && Includes(ToLower(field.value), term)
  }

  /** `skills && skills.some(skill => skill.toLowerCase().includes(term))`. */
  predicate SkillMatches(skills: Option<seq<string>>, term: string) {
    skills.Some? && exists k :: 0 <= k < |skills.value| && Includes(ToLower(skills.value[k]), term)
  }

  /** The search test with the term already lowercased. */
  predicate MatchesTerm(w: Worker, term: string) {
    FieldMatches(w.display_name, term) || FieldMatches(w.job_title, term) || FieldMatches(w.category, term)
    || FieldMatches(w.location, term) || FieldMatches(w.bio, term) || SkillMatches(w.skills, term)
  }

  function SearchTest(searchTerm: string): Worker -> bool {
    (w: Worker) => MatchesTerm(w, ToLower(searchTerm))
  }

  /** `filteredWorkers`. */
  function FilterWorkers(workers: seq<Worker>, searchTerm: string): seq<Worker> {
    Seqs.Filter(workers, SearchTest(searchTerm))
  }

  /** A worker is kept iff the lowercased term occurs in one of the five
      texts or in a skill; the kept list is a subsequence of the input and,
      when the input is sorted by rating, so is it. */
  lemma FilterWorkersSpec(workers: seq<Worker>, searchTerm: string)
    ensures forall k :: 0 <= k < |FilterWorkers(workers, searchTerm)| ==>
              MatchesTerm(FilterWorkers(workers, searchTerm)[k], ToLower(searchTerm))
    ensures forall k :: 0 <= k < |workers| && MatchesTerm(workers[k], ToLower(searchTerm)) ==>
              workers[k] in FilterWorkers(workers, searchTerm)
    ensures Seqs.IsSubseq(FilterWorkers(workers, searchTerm), workers)
    ensures Seqs.SortedDesc(workers, RatingKey()) ==> Seqs.SortedDesc(FilterWorkers(workers, searchTerm), RatingKey())
  {
    Seqs.FilterIsSubseq(workers, SearchTest(searchTerm));
    if Seqs.SortedDesc(workers, RatingKey()) {
      Seqs.FilterKeepsSortedDesc(workers, SearchTest(searchTerm), RatingKey());
    }
  }

  /** With an empty term, a worker is kept iff at least one of the texts is
      present or it lists a skill. */
  lemma EmptyTermKeeps(w: Worker)
    ensures MatchesTerm(w, ToLower("")) <==>
              w.display_name.Some? || w.job_title.Some? || w.category.Some? || w.location.Some? || w.bio.Some?
              || (w.skills.Some? && |w.skills.value| > 0)
  {
    assert ToLower("") == "";
    if w.display_name.Some? { IncludesEmpty(ToLower(w.display_name.value)); }
    if w.job_title.Some? { IncludesEmpty(ToLower(w.job_title.value)); }
    if w.category.Some? { IncludesEmpty(ToLower(w.category.value)); }
    if w.location.Some? { IncludesEmpty(ToLower(w.location.value)); }
    if w.bio.Some? { IncludesEmpty(ToLower(w.bio.value)); }
    if w.skills.Some? && |w.skills.value| > 0 { IncludesEmpty(ToLower(w.skills.value[0])); }
  }

  /** `displayWorkers`: the first three on the default view (no category,
      no term), all of them otherwise. */
  function DisplayWorkers(category: Option<string>, searchTerm: string, filtered: seq<Worker>): (r: seq<Worker>)
    ensures (category.None? || category.value == "") && searchTerm == "" ==>
              |r| == (if |filtered| < 3 then |filtered| else 3) && r == filtered[..|r|]
    ensures !((category.None? || category.value == "") && searchTerm == "") ==> r == filtered
  {
    if (category.None? || category.value == "") && searchTerm == "" then
      filtered[..if |filtered| < 3 then |filtered| else 3]
    else filtered
  }

  /** The default view: no category chosen and no search term. */
  predicate DefaultView(category: Option<string>, searchTerm: string) {
    (category.None? || category.value == "") && searchTerm == ""
  }

  /** A worker the page may list: available, of the category and matching
      the term. */
  predicate Qualifies(w: Worker, category: Option<string>, searchTerm: string) {
    Available(w) && InCategory(w, category) && MatchesTerm(w, ToLower(searchTerm))
  }

  /** `filteredWorkers` of the sorted query result. */
  function Filtered(table: seq<Worker>, category: Option<string>, searchTerm: string): seq<Worker> {
    FilterWorkers(SortByRating(Query(table, category)), searchTerm)
  }

  /** The list the page shows, from the table and the two inputs. */
  function WorkerList(table: seq<Worker>, category: Option<string>, searchTerm: string): seq<Worker> {
    DisplayWorkers(category, searchTerm, Filtered(table, category, searchTerm))
  }

  /** The sorted list holds the same workers as its input. */
  lemma SortedMembers(s: seq<Worker>)
    ensures forall x :: x in SortByRating(s) <==> x in s
  {
    var r := SortByRating(s);
    forall x ensures x in r <==> x in s {
      assert x in r <==> x in multiset(r);
      assert x in s <==> x in multiset(s);
    }
  }

  /** The shown list is a prefix of the filtered one. */
  lemma ShownIsPrefix(category: Option<string>, searchTerm: string, filtered: seq<Worker>)
    ensures var shown := DisplayWorkers(category, searchTerm, filtered);
            |shown| <= |filtered| && forall k :: 0 <= k < |shown| ==> shown[k] == filtered[k]
  {
  }

  /** The sorted and searched list, before the top-three cut: sorted by
      rating, and every worker in it qualifies and comes from the table. */
  lemma FilteredSpec(table: seq<Worker>, category: Option<string>, searchTerm: string)
    ensures var filtered := Filtered(table, category, searchTerm);
            Seqs.SortedDesc(filtered, RatingKey())
            && forall k :: 0 <= k < |filtered| ==>
                 Qualifies(filtered[k], category, searchTerm) && filtered[k] in table
  {
    var q := Query(table, category);
    var sorted := SortByRating(q);
    var filtered := FilterWorkers(sorted, searchTerm);
    SortByRatingSorted(q);
    SortedMembers(q);
    FilterWorkersSpec(sorted, searchTerm);
    QuerySpec(table, category);
    forall k | 0 <= k < |filtered|
      ensures Available(filtered[k]) && InCategory(filtered[k], category) && filtered[k] in table
    {
      assert filtered[k] in sorted;
    }
  }

  /** Every qualifying worker of the table is in the sorted and searched
      list. */
  lemma FilteredComplete(table: seq<Worker>, category: Option<string>, searchTerm: string)
    ensures forall k :: 0 <= k < |table| && Qualifies(table[k], category, searchTerm) ==>
              table[k] in Filtered(table, category, searchTerm)
  {
    var q := Query(table, category);
    var sorted := SortByRating(q);
    QuerySpec(table, category);
    SortedMembers(q);
    FilterWorkersSpec(sorted, searchTerm);
    forall k | 0 <= k < |table| && Qualifies(table[k], category, searchTerm)
      ensures table[k] in Filtered(table, category, searchTerm)
    {
      assert table[k] in sorted;
      var m :| 0 <= m < |sorted| && sorted[m] == table[k];
    }
  }

  /** On the default view a qualifying worker left out of the shown list
      rates no higher than anyone shown. */
  lemma TopThreeAreBest(table: seq<Worker>, category: Option<string>, searchTerm: string, w: Worker, i: int)
    requires DefaultView(category, searchTerm)
    requires w in Filtered(table, category, searchTerm) && w !in WorkerList(table, category, searchTerm)
    requires 0 <= i < |WorkerList(table, category, searchTerm)|
    ensures Rating(w) <= Rating(WorkerList(table, category, searchTerm)[i])
  {
    var filtered := Filtered(table, category, searchTerm);
    var shown := WorkerList(table, category, searchTerm);
    FilteredSpec(table, category, searchTerm);
    var m :| 0 <= m < |filtered| && filtered[m] == w;
    assert m >= |shown|;
    assert RatingKey()(filtered[i]) >= RatingKey()(filtered[m]);
  }

  /** The page shows the available workers of the category that match the
      term, highest rated first: all of them off the default view, and on the
      default view the first three, which no left-out worker outrates. */
  lemma WorkerListSpec(table: seq<Worker>, category: Option<string>, searchTerm: string)
    ensures Seqs.SortedDesc(WorkerList(table, category, searchTerm), RatingKey())
    ensures forall k :: 0 <= k < |WorkerList(table, category, searchTerm)| ==>
              var w := WorkerList(table, category, searchTerm)[k];
              Qualifies(w, category, searchTerm) && w in table
    ensures !DefaultView(category, searchTerm) ==>
              forall k :: 0 <= k < |table| && Qualifies(table[k], category, searchTerm) ==>
                table[k] in WorkerList(table, category, searchTerm)
    ensures DefaultView(category, searchTerm) ==>
              var n := |Filtered(table, category, searchTerm)|;
              |WorkerList(table, category, searchTerm)| == if n < 3 then n else 3
    ensures DefaultView(category, searchTerm) ==>
              forall k, i :: 0 <= k < |table| && Qualifies(table[k], category, searchTerm)
                             && table[k] !in WorkerList(table, category, searchTerm)
                             && 0 <= i < |WorkerList(table, category, searchTerm)| ==>
                Rating(table[k]) <= Rating(WorkerList(table, category, searchTerm)[i])
  {
    var filtered := Filtered(table, category, searchTerm);
    var shown := WorkerList(table, category, searchTerm);
    FilteredSpec(table, category, searchTerm);
    FilteredComplete(table, category, searchTerm);
    ShownIsPrefix(category, searchTerm, filtered);
    forall i, j | 0 <= i < j < |shown| ensures RatingKey()(shown[i]) >= RatingKey()(shown[j]) {
      assert shown[i] == filtered[i] && shown[j] == filtered[j];
    }
    if DefaultView(category, searchTerm) {
      forall k, i | 0 <= k < |table| && Qualifies(table[k], category, searchTerm) && table[k] !in shown
                    && 0 <= i < |shown|
        ensures Rating(table[k]) <= Rating(shown[i])
      {
        TopThreeAreBest(table, category, searchTerm, table[k], i);
      }
    }
  }
}
