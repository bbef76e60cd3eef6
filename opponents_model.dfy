/** Opponents: the things a user pits against each other, each with a name
    and an uploaded image. */
module OpponentsModel {
  import opened Common

  datatype OpponentImage = OpponentImage(imageId: ObjectId, url: string)

  datatype Opponent = Opponent(
    id: Option<ObjectId>,
    name: string,
    createdBy: ObjectId,
    image: OpponentImage,
    createdAt: int,
    updatedAt: Option<int>)

  const EmptyNameError: string := "Name cannot be empty"
  const EmptyImageUrlError: string := "Image URL cannot be empty"

  /** `Opponent::new`: the name is checked before the image URL; both are
      stored trimmed; a new opponent has no id and has never been updated. */
  function NewOpponent(name: string, createdBy: ObjectId, imageId: ObjectId, imageUrl: string, now: int)
    : (r: Result<Opponent, string>)
    ensures IsBlank(name) ==> r == Err(EmptyNameError)
    ensures !IsBlank(name) && IsBlank(imageUrl) ==> r == Err(EmptyImageUrlError)
    ensures r.Ok? <==> !IsBlank(name) && !IsBlank(imageUrl)
    ensures r.Ok? ==>
      && r.value.id == None && r.value.updatedAt == None && r.value.createdAt == now
      && r.value.name == Trim(name) && r.value.image.url == Trim(imageUrl)
      && r.value.createdBy == createdBy && r.value.image.imageId == imageId
  {
    if IsBlank(name) then Err(EmptyNameError)
    else if IsBlank(imageUrl) then Err(EmptyImageUrlError)
    else Ok(Opponent(None, Trim(name), createdBy, OpponentImage(imageId, Trim(imageUrl)), now, None))
  }

  /** A string that is not blank trims to a non-empty string without
      whitespace at either end, which trimming leaves alone. */
  lemma TrimmedNonBlank(s: string)
    requires !IsBlank(s)
    ensures var t := Trim(s); t != [] && !IsWhitespace(t[0]) && !IsWhitespace(t[|t| - 1]) && Trim(t) == t
  {
    TrimHasNoOuterWhitespace(s);
    TrimIdempotent(s);
  }

  /** A created opponent's name and URL are non-empty and already trimmed:
      trimming them again changes nothing. */
  lemma NewOpponentIsTrimmed(name: string, createdBy: ObjectId, imageId: ObjectId, imageUrl: string, now: int)
    requires NewOpponent(name, createdBy, imageId, imageUrl, now).Ok?
    ensures var o := NewOpponent(name, createdBy, imageId, imageUrl, now).value;
      o.name != [] && Trim(o.name) == o.name && o.image.url != [] && Trim(o.image.url) == o.image.url
  {
    TrimmedNonBlank(name);
    TrimmedNonBlank(imageUrl);
  }

  datatype OpponentResponse = OpponentResponse(
    id: ObjectId,
    name: string,
    createdBy: ObjectId,
    image: OpponentImage,
    createdAt: int,
    updatedAt: Option<int>)

  /** `OpponentResponse::from`: a stored opponent (the id is unwrapped), every
      field carried over. */
  function ToResponse(o: Opponent): (r: OpponentResponse)
    requires o.id.Some?
    ensures r.id == o.id.value
    ensures Opponent(Some(r.id), r.name, r.createdBy, r.image, r.createdAt, r.updatedAt) == o
  {
    OpponentResponse(o.id.value, o.name, o.createdBy, o.image, o.createdAt, o.updatedAt)
  }
}
