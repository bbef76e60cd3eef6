/** The opponent service over the opponents collection, a map from id to
    stored opponent. */
module OpponentsService {
  import opened Common
  import opened OpponentsModel
  import opened Pagination

  /** The service's failures, by kind. */
  datatype Error =
    | ValidationError(message: string)
    | NotFound(message: string)
    | Forbidden(message: string)
    | BadRequest(message: string)
    | DatabaseError(message: string)

  const OpponentNotFound: string := "Opponent not found"
  const UpdateForbidden: string := "You can only update your own opponents"
  const DeleteForbidden: string := "You can only delete your own opponents"

  /** The cursor `find_by_creator` hands out for an opponent: its id's text,
      or the empty text for an opponent without id. */
  function OpponentCursor(o: Opponent): (c: string)
  {
    if o.id.Some? then OidToString(o.id.value) else ""
  }

  /** `find_by_creator`: a cursor that is not an id is a bad request; otherwise
      the repository is asked for the creator's opponents before the cursor
      with the effective limit (`query` stands for that repository call, which
      fetches one row more than the limit), and its rows are paged with
      `with_cursor`. */
  method FindByCreator(cursor: Option<string>, limit: Option<int>,
                       query: (Option<ObjectId>, int) -> Result<seq<Opponent>, string>)
    returns (r: Result<PaginatedResponse<Opponent>, Error>)
    ensures CursorOid(cursor).Err? ==> r == Err(BadRequest(InvalidCursorError))
    ensures CursorOid(cursor).Ok? && query(CursorOid(cursor).value, EffectiveLimit(limit)).Err? ==>
      r == Err(DatabaseError(query(CursorOid(cursor).value, EffectiveLimit(limit)).error))
    ensures CursorOid(cursor).Ok? && query(CursorOid(cursor).value, EffectiveLimit(limit)).Ok? ==>
      r == Ok(CursorPage(query(CursorOid(cursor).value, EffectiveLimit(limit)).value, EffectiveLimit(limit), OpponentCursor))
  {
    var c := CursorOid(cursor);
    if c.Err? {
      return Err(BadRequest(c.error));
    }
    var lim := EffectiveLimit(limit);
    var rows := query(c.value, lim);
    if rows.Err? {
      return Err(DatabaseError(rows.error));
    }
    var page := WithCursor(rows.value, lim, OpponentCursor);
    r := Ok(page);
  }

  /** The next-page cursor of a stored opponent is read back as its id. */
  lemma OpponentCursorRoundTrip(o: Opponent)
    requires o.id.Some?
    ensures CursorOid(Some(OpponentCursor(o))) == Ok(o.id)
  {
    CursorRoundTrip(o.id.value);
  }

  /** The opponent an accepted update writes: the trimmed new name and the
      new image, each only when given, and the update time. */
  function Updated(o: Opponent, name: Option<string>, image: Option<OpponentImage>, now: int): (u: Opponent)
    requires name.Some? ==> !IsBlank(name.value)
    ensures u.id == o.id && u.createdBy == o.createdBy && u.createdAt == o.createdAt
    ensures u.updatedAt == Some(now)
    ensures u.name == (if name.Some? then Trim(name.value) else o.name)
    ensures u.image == (if image.Some? then image.value else o.image)
  {
    var named := if name.Some? then o.(name := Trim(name.value)) else o;
    var imaged := if image.Some? then named.(image := image.value) else named;
    imaged.(updatedAt := Some(now))
  }

  /** An update that gives nothing only moves the update time; updating with
      an already trimmed name and the current image is the same as giving
      nothing; and a given name never leaves surrounding whitespace. */
  lemma UpdatedProperties(o: Opponent, name: Option<string>, image: Option<OpponentImage>, now: int)
    requires name.Some? ==> !IsBlank(name.value)
    ensures Updated(o, None, None, now) == o.(updatedAt := Some(now))
    ensures o.name != [] && Trim(o.name) == o.name ==> Updated(o, Some(o.name), Some(o.image), now) == Updated(o, None, None, now)
    ensures name.Some? ==> Trim(Updated(o, name, image, now).name) == Updated(o, name, image, now).name
  {
    if name.Some? {
      TrimIdempotent(name.value);
    }
  }

  class OpponentServiceImpl {
    var opponents: map<ObjectId, Opponent>

    /** Every stored opponent is filed under its own id. */
    ghost predicate Valid()
      reads this
    {
      forall id :: id in opponents ==> opponents[id].id == Some(id)
    }

    constructor ()
      ensures Valid() && opponents == map[]
    {
      opponents := map[];
    }

    /** `create_opponent`: a validation failure is a `ValidationError` with the
        model's message and nothing is stored; a store failure (`storeError`)
        is a `DatabaseError`; otherwise the opponent is stored under the id the
        database assigns (`newId`, not yet used) and returned as stored. */
    method CreateOpponent(name: string, imageId: ObjectId, imageUrl: string, userId: ObjectId, now: int,
                          newId: ObjectId, storeError: Option<string>)
      returns (r: Result<Opponent, Error>)
      requires Valid() && newId !in opponents
      modifies this
      ensures Valid()
      ensures NewOpponent(name, userId, imageId, imageUrl, now).Err? ==>
        r == Err(ValidationError(NewOpponent(name, userId, imageId, imageUrl, now).error)) && opponents == old(opponents)
      ensures NewOpponent(name, userId, imageId, imageUrl, now).Ok? && storeError.Some? ==>
        r == Err(DatabaseError(storeError.value)) && opponents == old(opponents)
      ensures NewOpponent(name, userId, imageId, imageUrl, now).Ok? && storeError.None? ==>
        var stored := NewOpponent(name, userId, imageId, imageUrl, now).value.(id := Some(newId));
        r == Ok(stored) && opponents == old(opponents)[newId := stored]
    {
      var opponent := NewOpponent(name, userId, imageId, imageUrl, now);
      if opponent.Err? {
        return Err(ValidationError(opponent.error));
      }
      if storeError.Some? {
        return Err(DatabaseError(storeError.value));
      }
      var stored := opponent.value.(id := Some(newId));
      opponents := opponents[newId := stored];
      r := Ok(stored);
    }

    /** `update_opponent`: not found, then not the creator, then a blank new
        name; only then is `Updated` written back (a failing write,
        `storeError`, is a `DatabaseError` and leaves the collection as it
        was). */
    method UpdateOpponent(id: ObjectId, name: Option<string>, image: Option<OpponentImage>, userId: ObjectId, now: int,
                          storeError: Option<string>)
      returns (r: Result<Opponent, Error>)
      requires Valid()
      modifies this
      ensures Valid()
      ensures r.Err? ==> opponents == old(opponents)
      ensures id !in old(opponents) ==> r == Err(NotFound(OpponentNotFound))
      ensures id in old(opponents) && old(opponents)[id].createdBy != userId ==>
        r == Err(Forbidden(UpdateForbidden))
      ensures id in old(opponents) && old(opponents)[id].createdBy == userId && name.Some? && IsBlank(name.value) ==>
        r == Err(ValidationError(EmptyNameError))
      ensures id in old(opponents) && old(opponents)[id].createdBy == userId && !(name.Some? && IsBlank(name.value)) ==>
        if storeError.Some? then r == Err(DatabaseError(storeError.value))
        else
          var updated := Updated(old(opponents)[id], name, image, now);
          r == Ok(updated) && opponents == old(opponents)[id := updated]
    {
      if id !in opponents {
        return Err(NotFound(OpponentNotFound));
      }
      var opponent := opponents[id];
      if opponent.createdBy != userId {
        return Err(Forbidden(UpdateForbidden));
      }
      if name.Some? {
        if IsBlank(name.value) {
          return Err(ValidationError(EmptyNameError));
        }
        opponent := opponent.(name := Trim(name.value));
      }
      if image.Some? {
        opponent := opponent.(image := image.value);
      }
      opponent := opponent.(updatedAt := Some(now));
      if storeError.Some? {
        return Err(DatabaseError(storeError.value));
      }
      opponents := opponents[id := opponent];
      r := Ok(opponent);
    }

    /** `delete_opponent`: not found, then not the creator; only the creator's
        request removes the opponent. */
    method DeleteOpponent(id: ObjectId, userId: ObjectId) returns (r: Result<(), Error>)
      requires Valid()
      modifies this
      ensures Valid()
      ensures id !in old(opponents) ==> r == Err(NotFound(OpponentNotFound)) && opponents == old(opponents)
      ensures id in old(opponents) && old(opponents)[id].createdBy != userId ==>
        r == Err(Forbidden(DeleteForbidden)) && opponents == old(opponents)
      ensures id in old(opponents) && old(opponents)[id].createdBy == userId ==>
        r == Ok(()) && opponents == old(opponents) - {id}
      ensures r.Ok? <==> id in old(opponents) && old(opponents)[id].createdBy == userId
    {
      if id !in opponents {
        return Err(NotFound(OpponentNotFound));
      }
      if opponents[id].createdBy != userId {
        return Err(Forbidden(DeleteForbidden));
      }
      opponents := opponents - {id};
      r := Ok(());
    }
  }
}
