/** The samples of the graph module, and their two orders in time. */
module GraphItems {

  datatype GraphItem = GraphItem(ts: int, value: real)

  /** Newest first, as the cache holds them. */
  ghost predicate Decreasing(l: seq<GraphItem>) {
    forall i, j :: 0 <= i < j < |l| ==> l[j].ts < l[i].ts
  }

  /** Oldest first, as they are read and written. */
  ghost predicate Increasing(l: seq<GraphItem>) {
    forall i, j :: 0 <= i < j < |l| ==> l[i].ts < l[j].ts
  }
}
