/** Cursor pagination: the requested page size clamped to a range, the
    cursor parsed as an object id, and a page built from one row more than
    the limit, the extra row telling that more remain. */
module Pagination {
  import opened Common

  const DefaultLimit: int := 20
  const MaxLimit: int := 100
  const InvalidCursorError: string := "Invalid cursor"

  /** `effective_limit`: 20 when absent, otherwise clamped to [1, 100]. */
  function EffectiveLimit(limit: Option<int>): (r: int)
    ensures 1 <= r <= MaxLimit
    ensures limit.None? ==> r == DefaultLimit
    ensures limit.Some? && 1 <= limit.value <= MaxLimit ==> r == limit.value
    ensures limit.Some? && limit.value < 1 ==> r == 1
    ensures limit.Some? && limit.value > MaxLimit ==> r == MaxLimit
  {
    match limit
    case None => DefaultLimit
    case Some(l) => if l < 1 then 1 else if l > MaxLimit then MaxLimit else l
  }

  /** `cursor_oid`: no cursor is fine; a cursor must be an object id's text. */
  function CursorOid(cursor: Option<string>): (r: Result<Option<ObjectId>, string>)
    ensures cursor.None? ==> r == Ok(None)
    ensures cursor.Some? && ParseObjectId(cursor.value).None? ==> r == Err(InvalidCursorError)
    ensures r.Ok? && cursor.Some? ==> r.value.Some? && ParseObjectId(cursor.value) == r.value
  {
    match cursor
    case None => Ok(None)
    case Some(c) =>
      match ParseObjectId(c)
      case Some(o) => Ok(Some(o))
      case None => Err(InvalidCursorError)
  }

  /** A cursor handed out as an id's text form is read back as that id. */
  lemma CursorRoundTrip(o: ObjectId)
    ensures CursorOid(Some(OidToString(o))) == Ok(Some(o))
  {
    ObjectIdRoundTrip(o);
  }

  datatype PaginatedResponse<T> = PaginatedResponse(data: seq<T>, nextCursor: Option<string>, hasMore: bool)

  /** The rows a page keeps: all of them, or all but the last when there are
      more than `limit`. */
  function KeptRows<T>(data: seq<T>, limit: int): (rows: seq<T>)
    ensures |data| > limit && |data| > 0 ==> rows == data[..|data| - 1]
    ensures |data| <= limit || |data| == 0 ==> rows == data
  {
    if |data| > limit && |data| > 0 then data[..|data| - 1] else data
  }

  /** The page `with_cursor` builds. */
  function CursorPage<T>(data: seq<T>, limit: int, cursorFn: T -> string): (r: PaginatedResponse<T>)
  {
    var rows := KeptRows(data, limit);
    PaginatedResponse(rows, if |data| > limit && rows != [] then Some(cursorFn(rows[|rows| - 1])) else None, |data| > limit)
  }

  /** `new`: more rows than the limit means there are more; then the last row
      (one row, however many extra) is dropped. No cursor is set. */
  method New<T>(data: seq<T>, limit: int) returns (r: PaginatedResponse<T>)
    ensures r.hasMore <==> |data| > limit
    ensures r.data == KeptRows(data, limit)
    ensures r.nextCursor == None
  {
    var page := data;
    var hasMore := |page| > limit;
    if hasMore && |page| > 0 {
      page := page[..|page| - 1];
    }
    r := PaginatedResponse(page, None, hasMore);
  }

  /** `with_cursor`: as `new`, and when there are more rows the cursor is
      `cursorFn` of the last row kept (none when no row is kept). */
  method WithCursor<T>(data: seq<T>, limit: int, cursorFn: T -> string) returns (r: PaginatedResponse<T>)
    ensures r == CursorPage(data, limit, cursorFn)
    ensures r.hasMore <==> |data| > limit
    ensures r.hasMore && r.data != [] ==> r.nextCursor == Some(cursorFn(r.data[|r.data| - 1]))
    ensures !r.hasMore || r.data == [] ==> r.nextCursor == None
  {
    var page := data;
    var hasMore := |page| > limit;
    if hasMore && |page| > 0 {
      page := page[..|page| - 1];
    }
    var nextCursor := None;
    if hasMore && |page| > 0 {
      nextCursor := Some(cursorFn(page[|page| - 1]));
    }
    r := PaginatedResponse(page, nextCursor, hasMore);
  }

  /** The page built from a fetch of at most limit+1 rows (limit at least 1)
      holds at most `limit` rows, a prefix of the fetch, and says there is more
      exactly when the fetch came back full; the cursor then names the last
      row kept, the one just before the extra row. */
  lemma PageOfOverfetch<T>(data: seq<T>, limit: int, cursorFn: T -> string)
    requires 1 <= limit && |data| <= limit + 1
    ensures var r := CursorPage(data, limit, cursorFn);
      && |r.data| <= limit && r.data == data[..|r.data|]
      && (r.hasMore <==> |data| == limit + 1)
      && (r.hasMore ==> |r.data| == limit && r.nextCursor == Some(cursorFn(data[limit - 1])))
      && (!r.hasMore ==> r.data == data && r.nextCursor == None)
  {
  }

  /** A limit of zero or less with a single row reports more rows but hands out
      no cursor, since the only row is dropped. */
  lemma NoCursorWhenNothingKept<T>(x: T, limit: int, cursorFn: T -> string)
    requires limit <= 0
    ensures CursorPage([x], limit, cursorFn) == PaginatedResponse([], None, true)
  {
  }
}
