/** The collection modal: a fixed activity history, its search filter and the
    summary figures shown above it. Credits are held in tenths (2.0 is 20). */
module CollectionModal {
  import opened Text

  datatype HistoryItem = HistoryItem(
    id: nat, activity: string, credits: nat, date: string, kind: string, status: string)

  const MockHistory: seq<HistoryItem> := [
    HistoryItem(1, "Fibonacci Challenge Completed", 20, "2024-01-15", "challenge", "completed"),
    HistoryItem(2, "Code Analysis - React Optimization", 15, "2024-01-14", "analysis", "completed"),
    HistoryItem(3, "Neural Network Training Session", 30, "2024-01-13", "training", "completed"),
    HistoryItem(4, "Smart Contract Review", 25, "2024-01-12", "review", "pending"),
    HistoryItem(5, "Data Pipeline Optimization", 40, "2024-01-11", "optimization", "completed"),
    HistoryItem(6, "API Integration Challenge", 18, "2024-01-10", "challenge", "completed")
  ]

  /** The summary figures; `totalCredits` and `averageScore` in tenths. */
  datatype Stats = Stats(totalCredits: nat, completedTasks: nat, pendingTasks: nat, averageScore: nat)

  const ShownStats: Stats := Stats(148, 5, 1, 42)

  /** The search keeps an item whose activity or type contains the term, ignoring case. */
  predicate Matches(item: HistoryItem, term: string) {
    Contains(Lower(item.activity), Lower(term)) || Contains(Lower(item.kind), Lower(term))
  }

  /** `a` can be read off `b` left to right by skipping elements of `b`. */
  predicate IsSubsequence<T(==)>(a: seq<T>, b: seq<T>)
    decreases |b|
  {
    if a == [] then true
    else if b == [] then false
    else if a[0] == b[0] then IsSubsequence(a[1..], b[1..])
    else IsSubsequence(a, b[1..])
  }

  /** `items.filter(item => Matches(item, term))`. */
  function Filter(items: seq<HistoryItem>, term: string): (r: seq<HistoryItem>)
    ensures forall x :: x in r <==> x in items && Matches(x, term)
    ensures IsSubsequence(r, items)
    ensures |r| <= |items|
    ensures forall x :: multiset(r)[x] == if Matches(x, term) then multiset(items)[x] else 0
    decreases |items|
  {
    if items == [] then []
    else
      assert items == [items[0]] + items[1..];
      if Matches(items[0], term) then [items[0]] + Filter(items[1..], term)
      else Filter(items[1..], term)
  }

  function FilteredHistory(searchTerm: string): seq<HistoryItem> {
    Filter(MockHistory, searchTerm)
  }

  /** An empty search keeps everything. */
  lemma {:induction false} EmptyTermKeepsAll(items: seq<HistoryItem>)
    ensures Filter(items, "") == items
    decreases |items|
  {
    if items != [] {
      ContainsEmpty(Lower(items[0].activity));
      EmptyTermKeepsAll(items[1..]);
    }
  }

  lemma EmptySearchShowsAllSix()
    ensures FilteredHistory("") == MockHistory && |FilteredHistory("")| == 6
  {
    EmptyTermKeepsAll(MockHistory);
  }

  /** Searching for a term or its upper-cased form gives the same list. */
  lemma {:induction false} UpperCaseTermSameResult(items: seq<HistoryItem>, term: string)
    ensures Filter(items, Upper(term)) == Filter(items, term)
    decreases |items|
  {
    LowerOfUpper(term);
    if items != [] {
      UpperCaseTermSameResult(items[1..], term);
    }
  }

  function CountStatus(items: seq<HistoryItem>, status: string): nat {
    if items == [] then 0
    else (if items[0].status == status then 1 else 0) + CountStatus(items[1..], status)
  }

  function TotalCredits(items: seq<HistoryItem>): nat {
    if items == [] then 0 else items[0].credits + TotalCredits(items[1..])
  }

  /** The fixed figures agree with the fixed history: five completed, one pending,
      14.8 credits in all. */
  lemma StatsAgreeWithHistory()
    ensures CountStatus(MockHistory, "completed") == ShownStats.completedTasks
    ensures CountStatus(MockHistory, "pending") == ShownStats.pendingTasks
    ensures TotalCredits(MockHistory) == ShownStats.totalCredits
  {
  }
}
