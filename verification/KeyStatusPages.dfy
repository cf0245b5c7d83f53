/** The paged status view of a multi-key channel: get_key_status in controller/channel.go. */
module KeyStatusPages {
  import opened Prelude
  import opened MultiKey

  /** One row of the page, without its key preview. No reason is the empty text. */
  datatype KeyStatus = KeyStatus(index: int, status: int, disabledTime: int, reason: Option<Reason>)

  datatype Response = Response(
    keys: seq<KeyStatus>, total: int, page: int, pageSize: int, totalPages: int,
    enabled: int, manualDisabled: int, autoDisabled: int)

  const DEFAULT_PAGE_SIZE := 50

  function StatusAt(records: seq<Record>, i: nat): KeyStatus
    requires i < |records|
  {
    var r := records[i];
    if r.status == ENABLED then KeyStatus(i, r.status, 0, None)
    else KeyStatus(i, r.status, if r.time.Some? then r.time.value else 0, r.reason)
  }

  /** What the row of key `i` says: its status, and for a disabled key when and why. */
  predicate RowOf(row: KeyStatus, records: seq<Record>, i: int) {
    && 0 <= i < |records| && row.index == i && row.status == records[i].status
    && (row.status == 1 ==> row.disabledTime == 0 && row.reason == None)
    && (row.status != 1 ==>
          && row.reason == records[i].reason
          && (records[i].time.None? ==> row.disabledTime == 0)
          && (records[i].time.Some? ==> row.disabledTime == records[i].time.value))
  }

  /** The rows that pass the filter, in key order. */
  function Listed(records: seq<Record>, filter: Option<int>, n: nat): seq<KeyStatus>
    requires n <= |records|
  {
    if n == 0 then []
    else
      Listed(records, filter, n - 1) +
      if filter.None? || records[n - 1].status == filter.value then [StatusAt(records, n - 1)] else []
  }

  function Count(records: seq<Record>, status: int): nat {
    if records == [] then 0
    else Count(records[..|records| - 1], status) + if records[|records| - 1].status == status then 1 else 0
  }

  /** At least one page, and just enough to hold `total` rows. */
  function Pages(total: nat, size: int): int
    requires size > 0
  {
    if total == 0 then 1 else (total + size - 1) / size
  }

  /** The page shown: the one asked for, or the nearest there is. */
  predicate IsClamped(current: int, page: int, pages: int) {
    && 1 <= current <= pages
    && (1 <= page <= pages ==> current == page) && (page < 1 ==> current == 1) && (page > pages ==> current == pages)
  }

  /** Rows of one page, for a page number in range. */
  function Slice<T>(rows: seq<T>, page: int, size: int): seq<T>
    requires size > 0 && page >= 1
  {
    var start, end := (page - 1) * size, page * size;
    if start >= |rows| then [] else rows[start..if end > |rows| then |rows| else end]
  }

  method CountStatuses(records: seq<Record>) returns (enabled: nat, manual: nat, auto: nat)
    ensures enabled == Count(records, 1)
    ensures manual == Count(records, 2)
    ensures auto == Count(records, 3)
  {
    enabled, manual, auto := 0, 0, 0;
    for i := 0 to |records|
      invariant enabled == Count(records[..i], ENABLED)
      invariant manual == Count(records[..i], MANUALLY_DISABLED)
      invariant auto == Count(records[..i], AUTO_DISABLED)
    {
      assert records[..i + 1][..i] == records[..i];
      if records[i].status == ENABLED {
        enabled := enabled + 1;
      } else if records[i].status == MANUALLY_DISABLED {
        manual := manual + 1;
      } else if records[i].status == AUTO_DISABLED {
        auto := auto + 1;
      }
    }
    assert records[..|records|] == records;
  }

  method FilterRows(records: seq<Record>, filter: Option<int>) returns (rows: seq<KeyStatus>)
    ensures rows == Listed(records, filter, |records|)
  {
    rows := [];
    for i := 0 to |records|
      invariant rows == Listed(records, filter, i)
    {
      if filter.None? || records[i].status == filter.value {
        rows := rows + [StatusAt(records, i)];
      }
    }
  }

  method PageOf<T>(rows: seq<T>, page: int, size: int) returns (keys: seq<T>, current: int, pages: int)
    requires size > 0
    ensures pages == Pages(|rows|, size) >= 1
    ensures IsClamped(current, page, pages)
    ensures keys == Slice(rows, current, size)
  {
    current := if page <= 0 then 1 else page;
    PagesBound(|rows|, size);
    pages := (|rows| + size - 1) / size;
    if pages == 0 {
      pages := 1;
    }
    if current > pages {
      current := pages;
    }
    MulMonotonic(0, current - 1, size);
    var start := (current - 1) * size;
    var end := start + size;
    OneMore(current, size);
    if end > |rows| {
      end := |rows|;
    }
    keys := [];
    if start < |rows| {
      keys := rows[start..end];
    }
  }

  method GetKeyStatus(ch: Channel, page: int, pageSize: int, filter: Option<int>) returns (r: Response)
    ensures var records := View(ch);
            var rows := Listed(records, filter, |records|);
            && r.total == |rows|
            && r.pageSize == (if pageSize > 0 then pageSize else 50)
            && r.totalPages == Pages(|rows|, r.pageSize) >= 1
            && IsClamped(r.page, page, r.totalPages)
            && r.keys == Slice(rows, r.page, r.pageSize)
            && r.enabled == Count(records, 1)
            && r.manualDisabled == Count(records, 2)
            && r.autoDisabled == Count(records, 3)
  {
    var records := View(ch);
    var size := if pageSize <= 0 then DEFAULT_PAGE_SIZE else pageSize;
    var enabled, manual, auto := CountStatuses(records);
    var rows := FilterRows(records, filter);
    var keys, current, pages := PageOf(rows, page, size);
    r := Response(keys, |rows|, current, size, pages, enabled, manual, auto);
  }

  lemma PagesBound(total: nat, size: int)
    requires size > 0
    ensures total == 0 <==> (total + size - 1) / size == 0
    ensures (total + size - 1) / size >= 0
    ensures total <= Pages(total, size) * size
    ensures total > 0 ==> (Pages(total, size) - 1) * size < total
  {
    var q, m := (total + size - 1) / size, (total + size - 1) % size;
    assert q * size + m == total + size - 1;
    if q <= 0 { assert q * size <= 0; }
    if q >= 1 { assert q * size >= size; }
  }

  // ---------------------------------------------------------------- promises of the view

  /** Pages 1 to `upto` one after the other. */
  function Concatenated<T>(rows: seq<T>, size: int, upto: nat): seq<T>
    requires size > 0
  {
    if upto == 0 then [] else Concatenated(rows, size, upto - 1) + Slice(rows, upto, size)
  }

  lemma {:induction false} PagesArePrefix<T>(rows: seq<T>, size: int, upto: nat)
    requires size > 0
    ensures Concatenated(rows, size, upto) == rows[..if upto * size > |rows| then |rows| else upto * size]
  {
    if upto > 0 {
      PagesArePrefix(rows, size, upto - 1);
      var start, end := (upto - 1) * size, upto * size;
      OneMore(upto, size);
      if start < |rows| {
        PrefixGrows(rows, start, if end > |rows| then |rows| else end);
      }
    }
  }

  lemma PrefixGrows<T>(rows: seq<T>, start: nat, end: nat)
    requires start <= end <= |rows|
    ensures rows[..start] + rows[start..end] == rows[..end]
  {
  }

  lemma PageFits<T>(rows: seq<T>, size: int, page: int)
    requires size > 0 && 1 <= page <= Pages(|rows|, size)
    ensures |Slice(rows, page, size)| <= size
    ensures rows != [] ==> Slice(rows, page, size) != []
  {
    PagesBound(|rows|, size);
    OneMore(page, size);
    MulMonotonic(page - 1, Pages(|rows|, size) - 1, size);
  }

  lemma OneMore(a: int, size: int)
    ensures (a - 1) * size + size == a * size
  {
  }

  lemma MulMonotonic(a: nat, b: nat, size: nat)
    requires a <= b
    ensures 0 <= a * size <= b * size
  {
  }

  /** All pages together are exactly the filtered list: no row is lost or repeated, no page is
      longer than the page size, and no page of a non-empty list is empty. */
  lemma PagesCoverEverything<T>(rows: seq<T>, size: int)
    requires size > 0
    ensures Pages(|rows|, size) >= 1 && (rows == [] ==> Pages(|rows|, size) == 1)
    ensures Concatenated(rows, size, Pages(|rows|, size)) == rows
    ensures forall page | 1 <= page <= Pages(|rows|, size) ::
              |Slice(rows, page, size)| <= size && (rows != [] ==> Slice(rows, page, size) != [])
  {
    PagesBound(|rows|, size);
    PagesArePrefix(rows, size, Pages(|rows|, size));
    forall page | 1 <= page <= Pages(|rows|, size)
      ensures |Slice(rows, page, size)| <= size && (rows != [] ==> Slice(rows, page, size) != [])
    {
      PageFits(rows, size, page);
    }
  }

  /** The filtered list: exactly the keys with the wanted status, in key order. */
  lemma {:induction false} ListedIsFilter(records: seq<Record>, filter: Option<int>, n: nat, i: nat)
    requires i < n <= |records|
    ensures (exists row <- Listed(records, filter, n) :: row.index == i) <==>
            (filter.None? || records[i].status == filter.value)
  {
    var front, rows := Listed(records, filter, n - 1), Listed(records, filter, n);
    ListedInOrder(records, filter, n - 1);
    var passes := filter.None? || records[n - 1].status == filter.value;
    assert forall row :: row in rows <==> row in front || (passes && row == StatusAt(records, n - 1));
    if i < n - 1 {
      ListedIsFilter(records, filter, n - 1, i);
    } else if passes {
      assert StatusAt(records, n - 1) in rows;
    }
  }

  lemma {:induction false} ListedInOrder(records: seq<Record>, filter: Option<int>, n: nat)
    requires n <= |records|
    ensures forall row <- Listed(records, filter, n) :: row.index < n && RowOf(row, records, row.index)
    ensures forall k, l | 0 <= k < l < |Listed(records, filter, n)| ::
              Listed(records, filter, n)[k].index < Listed(records, filter, n)[l].index
  {
    if n > 0 {
      ListedInOrder(records, filter, n - 1);
      var front := Listed(records, filter, n - 1);
      assert forall k :: 0 <= k < |front| ==> front[k] in front;
    }
  }

  /** Each counter is the number of keys with that status. */
  lemma {:induction false} CountIs(records: seq<Record>, status: int)
    ensures Count(records, status) == |set i | 0 <= i < |records| && records[i].status == status|
  {
    if records != [] {
      var n := |records| - 1;
      CountIs(records[..n], status);
      var front := set i | 0 <= i < |records[..n]| && records[..n][i].status == status;
      var all := set i | 0 <= i < |records| && records[i].status == status;
      if records[n].status == status { assert all == front + {n}; } else { assert all == front; }
    }
  }

  /** The three counters add up when every status is one of the three. */
  lemma {:induction false} CountersAddUp(records: seq<Record>)
    requires forall i | 0 <= i < |records| :: records[i].status in {1, 2, 3}
    ensures Count(records, 1) + Count(records, 2) + Count(records, 3) == |records|
  {
    if records != [] { CountersAddUp(records[..|records| - 1]); }
  }
}
