/**
 * The records the board server stores and exchanges: users, boards, lists
 * and cards, the request bodies that create and update them, the defaults
 * a request takes for the fields a client leaves out, and the errors a
 * route answers with.
 */
module Models {
  import opened Wrappers

  type Id = string

  /**
   * An instant. The store keeps instants as ISO-8601 text in one time zone,
   * which sorts the same way as these numbers.
   */
  type Instant = int

  /** The value of one custom field of a card. */
  type FieldValue = string

  /** A user document as stored: the public profile plus the password hash. */
  datatype StoredUser = StoredUser(id: Id, email: string, name: string, password: string, createdAt: Instant)

  /** The public profile; reading a stored document into it drops the password hash. */
  datatype User = User(id: Id, email: string, name: string, createdAt: Instant)

  function Public(u: StoredUser): User {
    User(u.id, u.email, u.name, u.createdAt)
  }

  /** The public view keeps everything about a user except the password hash. */
  lemma PublicForgetsOnlyPassword(u: StoredUser, v: StoredUser)
    ensures Public(u) == Public(v) <==> u.(password := v.password) == v
  {
  }

  datatype UserCreate = UserCreate(email: string, name: string, password: string)

  datatype UserLogin = UserLogin(email: string, password: string)

  /** A login answer: a bearer token issued for `tokenSubject`, and the user. */
  datatype TokenResponse = TokenResponse(tokenSubject: Id, user: User)

  datatype Board = Board(
    id: Id,
    title: string,
    description: Option<string>,
    ownerId: Id,
    members: seq<Id>,
    background: Option<string>,
    createdAt: Instant,
    updatedAt: Instant)

  /** A board creation request; an explicit null is kept as `None`. */
  datatype BoardCreate = BoardCreate(title: string, description: Option<string>, background: Option<string>)

  const DefaultBackground: string := "#e0f7fa"

  /** The request a client sends when it gives only a title. */
  function BoardCreateWithDefaults(title: string): BoardCreate {
    BoardCreate(title, None, Some(DefaultBackground))
  }

  /** The board stored for a creation request: the caller owns it and is its only member. */
  function NewBoard(data: BoardCreate, id: Id, owner: Id, now: Instant): (b: Board)
    ensures b.id == id && b.ownerId == owner && b.members == [owner] && owner in b.members
    ensures b.title == data.title && b.description == data.description && b.background == data.background
    ensures b.createdAt == now && b.updatedAt == now
  {
    Board(id, data.title, data.description, owner, [owner], data.background, now, now)
  }

  /** A board created from a request with only a title has no description and the default background. */
  lemma BoardDefaults(title: string, id: Id, owner: Id, now: Instant)
    ensures var b := NewBoard(BoardCreateWithDefaults(title), id, owner, now);
      b.title == title && b.description == None && b.background == Some("#e0f7fa")
  {
  }

  /** A list (a column of cards) of a board. */
  datatype List = List(id: Id, title: string, boardId: Id, position: int, createdAt: Instant)

  datatype ListCreate = ListCreate(title: string, boardId: Id, position: int)

  datatype Card = Card(
    id: Id,
    title: string,
    description: Option<string>,
    listId: Id,
    boardId: Id,
    position: int,
    assignedTo: Option<seq<Id>>,
    labels: seq<string>,
    dueDate: Option<Instant>,
    priority: Option<string>,
    customFields: map<string, FieldValue>,
    mirroredTo: seq<Id>,
    createdAt: Instant,
    updatedAt: Instant)

  /**
   * A card creation request after parsing: a field the client leaves out
   * holds its default, a field the client sends as null holds `None`.
   */
  datatype CardCreate = CardCreate(
    title: string,
    description: Option<string>,
    listId: Id,
    boardId: Id,
    position: int,
    assignedTo: Option<seq<Id>>,
    labels: Option<seq<string>>,
    dueDate: Option<Instant>,
    priority: Option<string>,
    customFields: Option<map<string, FieldValue>>)

  const DefaultPriority: string := "medium"

  /** The request a client sends when it gives only the required fields. */
  function CardCreateWithDefaults(title: string, listId: Id, boardId: Id, position: int): (r: CardCreate)
    ensures r.title == title && r.listId == listId && r.boardId == boardId && r.position == position
    ensures forall id: Id, now: Instant :: CardFrom(r, id, now).Success?
  {
    CardCreate(title, None, listId, boardId, position, Some([]), Some([]), None, Some(DefaultPriority), Some(map[]))
  }

  /**
   * A card update request. `None` stands both for a field left out and for
   * a field sent as null: neither reaches the stored card.
   */
  datatype CardUpdate = CardUpdate(
    title: Option<string>,
    description: Option<string>,
    listId: Option<Id>,
    position: Option<int>,
    assignedTo: Option<seq<Id>>,
    labels: Option<seq<string>>,
    dueDate: Option<Instant>,
    priority: Option<string>,
    customFields: Option<map<string, FieldValue>>)

  /** The errors the routes answer with: the HTTP status and its detail text. */
  datatype Error =
    | TokenExpired
    | InvalidToken
    | UserNotFound
    | EmailAlreadyRegistered
    | InvalidCredentials
    | BoardNotFound
    | ListNotFound
    | CardNotFound
      // a request field sent as null where the card record needs a value;
      // record validation fails and the server answers with an internal error
    | InvalidCard

  function Status(e: Error): (code: int)
    ensures e.BoardNotFound? || e.ListNotFound? || e.CardNotFound? || e.UserNotFound? <==> code == 404
    ensures e.TokenExpired? || e.InvalidToken? || e.InvalidCredentials? <==> code == 401
    ensures e.EmailAlreadyRegistered? <==> code == 400
    ensures e.InvalidCard? <==> code == 500
  {
    match e
    case TokenExpired => 401
    case InvalidToken => 401
    case UserNotFound => 404
    case EmailAlreadyRegistered => 400
    case InvalidCredentials => 401
    case BoardNotFound => 404
    case ListNotFound => 404
    case CardNotFound => 404
    case InvalidCard => 500
  }

  function Detail(e: Error): string {
    match e
    case TokenExpired => "Token expired"
    case InvalidToken => "Invalid token"
    case UserNotFound => "User not found"
    case EmailAlreadyRegistered => "Email already registered"
    case InvalidCredentials => "Invalid credentials"
    case BoardNotFound => "Board not found"
    case ListNotFound => "List not found"
    case CardNotFound => "Card not found"
    case InvalidCard => "Internal Server Error"
  }

  /** Each error has its own detail text, so a client can tell the errors apart by it. */
  lemma DetailDistinct(e: Error, e': Error)
    ensures Detail(e) == Detail(e') ==> e == e'
  {
  }

  /**
   * The card record built from a creation request, with a fresh id and the
   * creation instant. Labels and custom fields must hold a value in the
   * record, so a request that sent either as null is refused.
   */
  function CardFrom(data: CardCreate, id: Id, now: Instant): (r: Result<Card, Error>)
    ensures r.Success? <==> data.labels.Some? && data.customFields.Some?
    ensures r.Failure? ==> r.error == InvalidCard
    ensures r.Success? ==>
      r.value.id == id && r.value.boardId == data.boardId && r.value.listId == data.listId &&
      r.value.title == data.title && r.value.position == data.position &&
      r.value.description == data.description && r.value.assignedTo == data.assignedTo &&
      r.value.dueDate == data.dueDate && r.value.customFields == data.customFields.value &&
      r.value.priority == data.priority && r.value.labels == data.labels.value &&
      r.value.mirroredTo == [] && r.value.createdAt == now && r.value.updatedAt == now
  {
    if data.labels.None? || data.customFields.None? then Failure(InvalidCard)
    else Success(Card(
      id, data.title, data.description, data.listId, data.boardId, data.position,
      data.assignedTo, data.labels.value, data.dueDate, data.priority,
      data.customFields.value, [], now, now))
  }

  /** A card created from a request that gives only the required fields. */
  lemma CardDefaults(title: string, listId: Id, boardId: Id, position: int, id: Id, now: Instant)
    ensures var r := CardFrom(CardCreateWithDefaults(title, listId, boardId, position), id, now);
      r.Success? && r.value.priority == Some(DefaultPriority) && r.value.labels == [] &&
      r.value.description == None && r.value.assignedTo == Some([]) && r.value.dueDate == None &&
      r.value.customFields == map[] && r.value.mirroredTo == []
  {
  }

  /** The update that carries no field. */
  const NoFields: CardUpdate := CardUpdate(None, None, None, None, None, None, None, None, None)

  /** Whether the update carries at least one field (the `$set` document is non-empty). */
  predicate Supplies(u: CardUpdate): (b: bool)
    ensures b <==> u != NoFields
  {
    u.title.Some? || u.description.Some? || u.listId.Some? || u.position.Some? ||
    u.assignedTo.Some? || u.labels.Some? || u.dueDate.Some? || u.priority.Some? ||
    u.customFields.Some?
  }

  /**
   * The stored card after an update: every field the update carries is set,
   * and so is the update instant when at least one is carried.
   */
  function ApplyUpdate(c: Card, u: CardUpdate, now: Instant): (r: Card)
    ensures r.id == c.id && r.boardId == c.boardId && r.mirroredTo == c.mirroredTo && r.createdAt == c.createdAt
    ensures u == NoFields ==> r == c
    ensures u != NoFields ==> r.updatedAt == now
  {
    if !Supplies(u) then c
    else c.(
      title := u.title.GetOr(c.title),
      description := u.description.Or(c.description),
      listId := u.listId.GetOr(c.listId),
      position := u.position.GetOr(c.position),
      assignedTo := u.assignedTo.Or(c.assignedTo),
      labels := u.labels.GetOr(c.labels),
      dueDate := u.dueDate.Or(c.dueDate),
      priority := u.priority.Or(c.priority),
      customFields := u.customFields.GetOr(c.customFields),
      updatedAt := now)
  }

  /** A field the update carries takes the update's value; every other field keeps its value. */
  lemma UpdateSetsOnlySuppliedFields(c: Card, u: CardUpdate, now: Instant)
    ensures var r := ApplyUpdate(c, u, now);
      r.id == c.id && r.boardId == c.boardId && r.mirroredTo == c.mirroredTo && r.createdAt == c.createdAt &&
      (if u.title.Some? then r.title == u.title.value else r.title == c.title) &&
      (if u.description.Some? then r.description == u.description else r.description == c.description) &&
      (if u.listId.Some? then r.listId == u.listId.value else r.listId == c.listId) &&
      (if u.position.Some? then r.position == u.position.value else r.position == c.position) &&
      (if u.assignedTo.Some? then r.assignedTo == u.assignedTo else r.assignedTo == c.assignedTo) &&
      (if u.labels.Some? then r.labels == u.labels.value else r.labels == c.labels) &&
      (if u.dueDate.Some? then r.dueDate == u.dueDate else r.dueDate == c.dueDate) &&
      (if u.priority.Some? then r.priority == u.priority else r.priority == c.priority) &&
      (if u.customFields.Some? then r.customFields == u.customFields.value else r.customFields == c.customFields) &&
      r.updatedAt == (if Supplies(u) then now else c.updatedAt)
  {
  }

  /** An update that carries nothing leaves the record exactly as it was. */
  lemma EmptyUpdateChangesNothing(c: Card, u: CardUpdate, now: Instant)
    requires !Supplies(u)
    ensures ApplyUpdate(c, u, now) == c
  {
  }

  /** An update cannot clear a field: a field empty afterwards was empty before. */
  lemma UpdateNeverClears(c: Card, u: CardUpdate, now: Instant)
    ensures var r := ApplyUpdate(c, u, now);
      (r.description.None? ==> c.description.None?) && (r.assignedTo.None? ==> c.assignedTo.None?) &&
      (r.dueDate.None? ==> c.dueDate.None?) && (r.priority.None? ==> c.priority.None?)
  {
  }

  /** Sending the same update twice at one instant gives the same record as once. */
  lemma UpdateIdempotent(c: Card, u: CardUpdate, now: Instant)
    ensures ApplyUpdate(ApplyUpdate(c, u, now), u, now) == ApplyUpdate(c, u, now)
  {
  }
}
