/** Cursor pagination over entries in key order, as `listRecords` and `listBlobs` serve it. */
module Pagination {
  import opened Wrappers
  import opened Lex

  /** `value` is `None` when the stored bytes do not decode, which fails the request. */
  datatype Entry = Entry(key: string, value: Option<string>)
  datatype Page = Page(records: seq<Entry>, cursor: Option<string>)

  const RECORDS_MAX: nat := 100
  const BLOBS_MAX: nat := 1000

  ghost predicate Sorted(entries: seq<Entry>) {
    forall i, j :: 0 <= i < j < |entries| ==> Less(entries[i].key, entries[j].key)
  }

  ghost predicate Readable(entries: seq<Entry>) { forall i :: 0 <= i < |entries| ==> entries[i].value.Some? }

  function Clamp(limit: nat, max: nat): nat
    requires 1 <= max
  {
    if limit < 1 then 1 else if max < limit then max else limit
  }

  predicate Past(e: Entry, cursor: Option<string>) {
    cursor.Some? ==> e.key != cursor.value && !Less(e.key, cursor.value)
  }

  /** The entries after an exclusive cursor. */
  function After(entries: seq<Entry>, cursor: Option<string>): seq<Entry> {
    if entries == [] then []
    else After(entries[..|entries| - 1], cursor) +
         (if Past(entries[|entries| - 1], cursor) then [entries[|entries| - 1]] else [])
  }

  function Take(entries: seq<Entry>, n: nat): seq<Entry> { if |entries| <= n then entries else entries[..n] }

  /** One page: a cursor only when the page is full. */
  function PageOf(entries: seq<Entry>, limit: nat, cursor: Option<string>): Page
    requires 1 <= limit
  {
    var rows := Take(After(entries, cursor), limit);
    Page(rows, if |rows| == limit then LastKey(rows) else None)
  }

  function LastKey(rows: seq<Entry>): Option<string> { if rows == [] then None else Some(rows[|rows| - 1].key) }

  /** `list_records`: skip to the cursor, collect up to the clamped limit, and fail if a
      record of the page cannot be decoded. */
  method ListRecords(entries: seq<Entry>, limit: nat, cursor: Option<string>) returns (page: Option<Page>)
    ensures page.Some? <==> Readable(PageOf(entries, Clamp(limit, RECORDS_MAX), cursor).records)
    ensures page.Some? ==> page.value == PageOf(entries, Clamp(limit, RECORDS_MAX), cursor)
  {
    var cap := Clamp(limit, RECORDS_MAX);
    var records: seq<Entry> := [];
    var lastKey: Option<string> := None;
    var i := 0;
    while i < |entries| && |records| < cap
      invariant 0 <= i <= |entries| && |records| <= cap
      invariant records == After(entries[..i], cursor) && Readable(records)
      invariant lastKey == LastKey(records)
    {
      AfterNext(entries, i, cursor);
      if Past(entries[i], cursor) {
        if entries[i].value.None? {
          OnPage(entries, i, cursor, cap);
          return None;
        }
        records := records + [entries[i]];
        lastKey := Some(entries[i].key);
      }
      i := i + 1;
    }
    FullPage(entries, i, cursor, cap);
    page := Some(Page(records, if |records| == cap then lastKey else None));
  }

  /** An entry past the cursor with fewer than a page before it is on the page. */
  lemma {:induction false} OnPage(entries: seq<Entry>, i: nat, cursor: Option<string>, cap: nat)
    requires i < |entries| && 1 <= cap && |After(entries[..i], cursor)| < cap && Past(entries[i], cursor)
    ensures entries[i].value.None? ==> !Readable(PageOf(entries, cap, cursor).records)
  {
    assert entries[..i + 1][..i] == entries[..i];
    AfterPrefix(entries, i + 1, cursor);
    var n := |After(entries[..i], cursor)|;
    assert After(entries, cursor)[n] == After(entries[..i + 1], cursor)[n] == entries[i];
    assert PageOf(entries, cap, cursor).records[n] == entries[i];
  }

  lemma {:induction false} AfterNext(entries: seq<Entry>, i: nat, cursor: Option<string>)
    requires i < |entries|
    ensures After(entries[..i + 1], cursor) ==
            After(entries[..i], cursor) + (if Past(entries[i], cursor) then [entries[i]] else [])
  {
    assert entries[..i + 1][..i] == entries[..i];
  }

  lemma {:induction false} FullPage(entries: seq<Entry>, i: nat, cursor: Option<string>, cap: nat)
    requires i <= |entries| && 1 <= cap && |After(entries[..i], cursor)| <= cap
    requires i == |entries| || |After(entries[..i], cursor)| == cap
    ensures var rows := After(entries[..i], cursor);
      PageOf(entries, cap, cursor) == Page(rows, if |rows| == cap then LastKey(rows) else None)
  {
    AfterPrefix(entries, i, cursor);
    if i == |entries| {
      assert entries[..i] == entries;
    }
  }

  lemma {:induction false} AfterPrefix(entries: seq<Entry>, n: nat, cursor: Option<string>)
    requires n <= |entries|
    ensures After(entries[..n], cursor) <= After(entries, cursor)
  {
    if n < |entries| {
      assert entries[..|entries| - 1][..n] == entries[..n];
      AfterPrefix(entries[..|entries| - 1], n, cursor);
    } else {
      assert entries[..n] == entries;
    }
  }

  /** `listBlobs`: one ordered query, then the same cursor rule. */
  method ListBlobs(cids: seq<Entry>, limit: Option<nat>, cursor: Option<string>) returns (page: Page)
    ensures page == PageOf(cids, Clamp(if limit.Some? then limit.value else 500, BLOBS_MAX), cursor)
    ensures 1 <= Clamp(if limit.Some? then limit.value else 500, BLOBS_MAX) <= BLOBS_MAX
  {
    var cap := Clamp(if limit.Some? then limit.value else 500, BLOBS_MAX);
    var rows := Take(After(cids, cursor), cap);
    var next: Option<string> := None;
    if |rows| == cap {
      next := Some(rows[|rows| - 1].key);
    }
    page := Page(rows, next);
  }

  // ---- following cursors ----

  /** In sorted entries, the cursor left by entry `k` admits exactly the entries after it. */
  lemma {:induction false} AfterKey(entries: seq<Entry>, k: nat)
    requires Sorted(entries) && k < |entries|
    ensures After(entries, Some(entries[k].key)) == entries[k + 1..]
  {
    var n := |entries| - 1;
    var c := Some(entries[k].key);
    if k == n {
      AfterNothing(entries, entries[k].key);
    } else {
      AfterKey(entries[..n], k);
      assert entries[..n][k + 1..] + [entries[n]] == entries[k + 1..];
      Trichotomy(entries[k].key, entries[n].key);
    }
  }

  lemma {:induction false} AfterNothing(entries: seq<Entry>, key: string)
    requires forall i :: 0 <= i < |entries| ==> entries[i].key == key || Less(entries[i].key, key)
    ensures After(entries, Some(key)) == []
  {
    if entries == [] {
    } else {
      assert entries[|entries| - 1] in entries;
      AfterNothing(entries[..|entries| - 1], key);
    }
  }

  lemma {:induction false} AfterNone(entries: seq<Entry>)
    ensures After(entries, None) == entries
  {
    if entries == [] {
    } else {
      AfterNone(entries[..|entries| - 1]);
    }
  }

  /** The cursor a client stands at after `start` entries. */
  function CursorAt(entries: seq<Entry>, start: nat): Option<string>
    requires start <= |entries|
  {
    if start == 0 then None else Some(entries[start - 1].key)
  }

  lemma {:induction false} AfterCursor(entries: seq<Entry>, start: nat)
    requires Sorted(entries) && start <= |entries|
    ensures After(entries, CursorAt(entries, start)) == entries[start..]
  {
    if start == 0 {
      AfterNone(entries);
    } else {
      AfterKey(entries, start - 1);
    }
  }

  /** One page read from `start`: the next entries, and a cursor exactly on a full page. */
  lemma PageFrom(entries: seq<Entry>, limit: nat, start: nat)
    requires Sorted(entries) && start <= |entries| && 1 <= limit
    ensures var page := PageOf(entries, limit, CursorAt(entries, start));
      if start + limit <= |entries|
      then page.records == entries[start..start + limit] && page.cursor == CursorAt(entries, start + limit)
      else page.records == entries[start..] && page.cursor == None
  {
    AfterCursor(entries, start);
  }

  lemma SomeUnreadable(entries: seq<Entry>, start: nat, limit: nat)
    requires Sorted(entries) && start <= |entries| && 1 <= limit
    requires !Readable(PageOf(entries, limit, CursorAt(entries, start)).records)
    ensures !Readable(entries)
  {
    PageFrom(entries, limit, start);
    var rows := PageOf(entries, limit, CursorAt(entries, start)).records;
    var i :| 0 <= i < |rows| && rows[i].value.None?;
    assert rows[i] == entries[start + i];
  }

  /** What a client asked for, held to the server's bounds. */
  predicate PagesOf(sizes: seq<nat>, asked: nat, max: nat) {
    var size := if asked == 0 then 1 else if asked <= max then asked else max;
    sizes != [] && sizes[|sizes| - 1] < size && forall i :: 0 <= i < |sizes| - 1 ==> sizes[i] == size
  }

  /** A client that follows `listRecords` cursors from none, for any limit: it stops; it fails
      exactly when some record cannot be decoded; and otherwise the pages joined are the sorted
      entries with no loss and no repeat. Every page but the last is of the size asked for, held
      to 1 to 100, and only the last is smaller. */
  method FollowRecords(entries: seq<Entry>, limit: nat) returns (all: Option<seq<Entry>>, sizes: seq<nat>)
    requires Sorted(entries)
    ensures all == if Readable(entries) then Some(entries) else None
    ensures all.Some? ==> PagesOf(sizes, limit, 100)
  {
    var cap := Clamp(limit, RECORDS_MAX);
    var got: seq<Entry> := [];
    var cursor: Option<string> := None;
    sizes := [];
    while true
      invariant |got| <= |entries| && cursor == CursorAt(entries, |got|) && got == entries[..|got|] && Readable(got)
      invariant forall i :: 0 <= i < |sizes| ==> sizes[i] == cap
      decreases |entries| - |got|
    {
      PageFrom(entries, cap, |got|);
      var page := ListRecords(entries, limit, cursor);
      if page.None? {
        SomeUnreadable(entries, |got|, cap);
        return None, sizes;
      }
      got := got + page.value.records;
      sizes := sizes + [|page.value.records|];
      if page.value.cursor.None? {
        assert got == entries;
        return Some(got), sizes;
      }
      cursor := page.value.cursor;
    }
  }

  /** The same for blobs, where nothing can fail, 500 are meant when nothing is asked, and the bounds
      are 1 and 1000. */
  method FollowBlobs(cids: seq<Entry>, limit: Option<nat>) returns (all: seq<Entry>, sizes: seq<nat>)
    requires Sorted(cids)
    ensures all == cids && PagesOf(sizes, if limit.Some? then limit.value else 500, 1000)
  {
    all, sizes := [], [];
    var cap := Clamp(if limit.Some? then limit.value else 500, BLOBS_MAX);
    var cursor: Option<string> := None;
    while true
      invariant |all| <= |cids| && cursor == CursorAt(cids, |all|) && all == cids[..|all|]
      invariant forall i :: 0 <= i < |sizes| ==> sizes[i] == cap
      decreases |cids| - |all|
    {
      PageFrom(cids, cap, |all|);
      var page := ListBlobs(cids, limit, cursor);
      all := all + page.records;
      sizes := sizes + [|page.records|];
      if page.cursor.None? {
        break;
      }
      cursor := page.cursor;
    }
  }
}
