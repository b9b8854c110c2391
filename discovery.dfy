/** The task feed's search (src/pages/Discovery.jsx): the fetched tasks,
    newest first, narrowed by a term. */
module Discovery {
  import opened Wrappers
  import opened Strings
  import Seqs

  /** A fetched task with its joined `creator`; absent texts are `None`,
      `created_at` a timestamp. */
  datatype Creator = Creator(display_name: Option<string>)
  datatype FeedTask = FeedTask(id: string, title: Option<string>, description: Option<string>,
                               location: Option<string>, category: Option<string>, creator: Option<Creator>,
                               created_at: int)

  predicate FieldMatches(field: Option<string>, term: string) {
    field.Some? && Includes(ToLower(field.value), term)
  }

  /** The five tests, with the term already lowercased; the creator's name
      counts only when both the creator and the name are present. */
  predicate MatchesTerm(t: FeedTask, term: string) {
    FieldMatches(t.title, term) || FieldMatches(t.description, term) || FieldMatches(t.location, term)
    || FieldMatches(t.category, term)
    || (t.creator.Some? && FieldMatches(t.creator.value.display_name, term))
  }

  function SearchTest(searchTerm: string): FeedTask -> bool {
    (t: FeedTask) => MatchesTerm(t, ToLower(searchTerm))
  }

  function CreatedAt(): FeedTask -> int {
    (t: FeedTask) => t.created_at
  }

  /** `filteredTasks`. */
  function FilterTasks(tasks: seq<FeedTask>, searchTerm: string): seq<FeedTask> {
    Seqs.Filter(tasks, SearchTest(searchTerm))
  }

  /** A task is kept iff the lowercased term occurs in one of its texts; the
      result is a subsequence of the feed, so still newest first when the
      feed is. */
  lemma FilterTasksSpec(tasks: seq<FeedTask>, searchTerm: string)
    ensures forall k :: 0 <= k < |FilterTasks(tasks, searchTerm)| ==>
              MatchesTerm(FilterTasks(tasks, searchTerm)[k], ToLower(searchTerm))
    ensures forall k :: 0 <= k < |tasks| && MatchesTerm(tasks[k], ToLower(searchTerm)) ==>
              tasks[k] in FilterTasks(tasks, searchTerm)
    ensures Seqs.IsSubseq(FilterTasks(tasks, searchTerm), tasks)
    ensures Seqs.SortedDesc(tasks, CreatedAt()) ==> Seqs.SortedDesc(FilterTasks(tasks, searchTerm), CreatedAt())
  {
    Seqs.FilterIsSubseq(tasks, SearchTest(searchTerm));
    if Seqs.SortedDesc(tasks, CreatedAt()) {
      Seqs.FilterKeepsSortedDesc(tasks, SearchTest(searchTerm), CreatedAt());
    }
  }

  /** With an empty term, a task is kept iff at least one of the searched
      texts is present. */
  lemma EmptyTermKeeps(t: FeedTask)
    ensures MatchesTerm(t, ToLower("")) <==>
              t.title.Some? || t.description.Some? || t.location.Some? || t.category.Some?
              || (t.creator.Some? && t.creator.value.display_name.Some?)
  {
    assert ToLower("") == "";
    if t.title.Some? { IncludesEmpty(ToLower(t.title.value)); }
    if t.description.Some? { IncludesEmpty(ToLower(t.description.value)); }
    if t.location.Some? { IncludesEmpty(ToLower(t.location.value)); }
    if t.category.Some? { IncludesEmpty(ToLower(t.category.value)); }
    if t.creator.Some? && t.creator.value.display_name.Some? {
      IncludesEmpty(ToLower(t.creator.value.display_name.value));
    }
  }
}
