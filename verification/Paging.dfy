/** Reading a list page by page: skip what is absent, stop at a limit, hand back a cursor. */
module Paging {
  import opened Host

  /** The entries present between two positions, in order. */
  function Kept<T>(items: seq<Option<T>>, lo: nat, hi: nat): seq<T>
    requires lo <= hi <= |items|
  {
    if lo == hi then []
    else Kept(items, lo, hi - 1) + if items[hi - 1].Some? then [items[hi - 1].value] else []
  }

  /** Where a page that starts at a position stops: after its last entry, or at the end of the list. */
  function PageEnd<T>(items: seq<Option<T>>, limit: nat, at: nat): (end: nat)
    ensures at <= end && (at <= |items| ==> end <= |items|)
    ensures limit > 0 && at < |items| ==> at < end
    decreases |items| - at
  {
    if limit == 0 || at >= |items| then at
    else PageEnd(items, if items[at].Some? then limit - 1 else limit, at + 1)
  }

  datatype Page<T> = Page(entries: seq<T>, next: Option<nat>)

  function PageAt<T>(items: seq<Option<T>>, limit: nat, at: nat): Page<T> {
    var end := PageEnd(items, limit, at);
    Page(if at < |items| then Kept(items, at, end) else [], if end < |items| then Some(end) else None)
  }

  lemma {:induction false} KeptSplit<T>(items: seq<Option<T>>, lo: nat, mid: nat, hi: nat)
    requires lo <= mid <= hi <= |items|
    ensures Kept(items, lo, hi) == Kept(items, lo, mid) + Kept(items, mid, hi)
  {
    if mid < hi {
      KeptSplit(items, lo, mid, hi - 1);
    }
  }

  /** A page holds no more than its limit, and fewer only when the list is exhausted. */
  lemma {:induction false} PageIsFull<T>(items: seq<Option<T>>, limit: nat, at: nat)
    requires at <= |items|
    ensures |Kept(items, at, PageEnd(items, limit, at))| <= limit
    ensures |Kept(items, at, PageEnd(items, limit, at))| < limit ==> PageEnd(items, limit, at) == |items|
    decreases |items| - at
  {
    if limit > 0 && at < |items| {
      var rest := if items[at].Some? then limit - 1 else limit;
      PageIsFull(items, rest, at + 1);
      KeptSplit(items, at, at + 1, PageEnd(items, limit, at));
      assert Kept(items, at, at + 1) == if items[at].Some? then [items[at].value] else [];
    }
  }

  /** What a reader has after asking for pages of the given limits, always passing the cursor back; the cursor
      is None once the reader has been told that nothing is left. */
  ghost function Read<T>(items: seq<Option<T>>, limits: seq<nat>, at: nat): Page<T>
    decreases |limits|
  {
    if limits == [] then Page([], Some(at))
    else
      var page := PageAt(items, limits[0], at);
      if page.next.None? then page
      else
        var rest := Read(items, limits[1..], page.next.value);
        Page(page.entries + rest.entries, rest.next)
  }

  /** With any positive limits the reader ends, after at most one page per position, and has then read every
      entry from where it started, in order, none twice and none lost; before that, it has read those up to
      its cursor. */
  lemma {:induction false} ReadsEverything<T>(items: seq<Option<T>>, limits: seq<nat>, at: nat)
    requires at <= |items| && forall i :: 0 <= i < |limits| ==> limits[i] > 0
    ensures var got := Read(items, limits, at);
            match got.next
            case None => got.entries == Kept(items, at, |items|)
            case Some(cursor) => at <= cursor <= |items| && got.entries == Kept(items, at, cursor)
    ensures |limits| > 0 && |limits| >= |items| - at ==> Read(items, limits, at).next.None?
    decreases |limits|
  {
    if limits != [] {
      var page := PageAt(items, limits[0], at);
      if page.next.Some? {
        var end := page.next.value;
        ReadsEverything(items, limits[1..], end);
        var rest := Read(items, limits[1..], end);
        KeptSplit(items, at, end, if rest.next.Some? then rest.next.value else |items|);
      }
    }
  }
}
