/**
 * The board store behind the REST routes: users, boards, lists and cards
 * held as collections in stored order, and one method per route handler.
 * Registration and login take no token. Every other handler first
 * identifies the caller from the bearer token. Reading a board, creating
 * and reading its lists and cards check that the caller is a member, and
 * deleting a board checks that the caller owns it. Deleting a list and
 * updating or deleting a card check nothing beyond sign-in.
 */
module BoardStore {
  import opened Wrappers
  import opened Sequences
  import opened Models

  /** Page sizes of the cursor reads. */
  const BoardPage: nat := 1000
  const ListPage: nat := 1000
  const CardPage: nat := 10000

  /** What decoding and checking the signature of a bearer token gives. */
  datatype TokenClaim = Decoded(userId: Id) | Expired | Malformed

  // Equality filters of the queries.

  function UserWithId(id: Id): StoredUser -> bool { (u: StoredUser) => u.id == id }
  function UserWithEmail(email: string): StoredUser -> bool { (u: StoredUser) => u.email == email }
  function HasMember(uid: Id): Board -> bool { (b: Board) => uid in b.members }
  function MemberBoard(boardId: Id, uid: Id): Board -> bool { (b: Board) => b.id == boardId && uid in b.members }
  function OwnedBoard(boardId: Id, uid: Id): Board -> bool { (b: Board) => b.id == boardId && b.ownerId == uid }
  function BoardWithId(boardId: Id): Board -> bool { (b: Board) => b.id == boardId }
  function ListWithId(listId: Id): List -> bool { (l: List) => l.id == listId }
  function ListOnBoard(boardId: Id): List -> bool { (l: List) => l.boardId == boardId }
  function CardWithId(cardId: Id): Card -> bool { (c: Card) => c.id == cardId }
  function CardOnBoard(boardId: Id): Card -> bool { (c: Card) => c.boardId == boardId }
  function CardInList(listId: Id): Card -> bool { (c: Card) => c.listId == listId }
  function CardOnBoardIn(boardIds: seq<Id>): Card -> bool { (c: Card) => c.boardId in boardIds }

  /** Sort keys: lists by ascending position, cards by descending creation instant. */
  function ByPosition(): List -> int { (l: List) => l.position }
  function NewestFirst(): Card -> int { (c: Card) => -c.createdAt }

  ghost predicate EmailTaken(users: seq<StoredUser>, email: string) {
    exists u :: u in users && u.email == email
  }

  ghost predicate EmailsDistinct(users: seq<StoredUser>) {
    forall i, j :: 0 <= i < |users| && 0 <= j < |users| && i != j ==> users[i].email != users[j].email
  }

  ghost predicate BoardExists(boards: seq<Board>, boardId: Id) {
    exists b :: b in boards && b.id == boardId
  }

  ghost predicate IsMember(boards: seq<Board>, boardId: Id, uid: Id) {
    exists b :: b in boards && b.id == boardId && uid in b.members
  }

  ghost predicate IsOwner(boards: seq<Board>, boardId: Id, uid: Id) {
    exists b :: b in boards && b.id == boardId && b.ownerId == uid
  }

  ghost predicate BoardIdsDistinct(boards: seq<Board>) {
    forall i, j :: 0 <= i < |boards| && 0 <= j < |boards| && i != j ==> boards[i].id != boards[j].id
  }

  /** The ids of the given boards (the `$in` list of the inbox query). */
  function BoardIds(bs: seq<Board>): (ids: seq<Id>)
    ensures forall id :: id in ids <==> exists b :: b in bs && b.id == id
    decreases |bs|
  {
    if bs == [] then [] else [bs[0].id] + BoardIds(bs[1..])
  }

  /**
   * The caller a bearer token identifies: the user whose id the token
   * carries, provided the token is valid and that user is stored.
   */
  function Authenticate(users: seq<StoredUser>, claim: TokenClaim): (r: Result<User, Error>)
    ensures r.Success? ==> claim.Decoded? && r.value.id == claim.userId
    ensures r.Success? ==> exists u :: u in users && Public(u) == r.value
    ensures claim.Decoded? ==> (r.Success? <==> exists u :: u in users && u.id == claim.userId)
    ensures claim.Expired? ==> r == Failure(TokenExpired)
    ensures claim.Malformed? ==> r == Failure(InvalidToken)
    ensures claim.Decoded? && r.Failure? ==> r.error == UserNotFound
  {
    match claim
    case Expired => Failure(TokenExpired)
    case Malformed => Failure(InvalidToken)
    case Decoded(uid) =>
      match FirstIndex(users, UserWithId(uid))
      case None => Failure(UserNotFound)
      case Some(i) => Success(Public(users[i]))
  }

  /** With duplicate ids, the caller is the first stored user with the token's id, as `find_one` picks it. */
  lemma AuthenticatePicksFirstUser(users: seq<StoredUser>, claim: TokenClaim)
    ensures Authenticate(users, claim).Success? ==>
      Authenticate(users, claim).value == Public(users[FirstIndex(users, UserWithId(claim.userId)).value])
  {
  }

  /** A token issued for a newly stored user, whose id is fresh, identifies that user. */
  lemma IssuedTokenAuthenticates(users: seq<StoredUser>, u: StoredUser)
    requires forall v :: v in users ==> v.id != u.id
    ensures Authenticate(users + [u], Decoded(u.id)) == Success(Public(u))
  {
    var s := users + [u];
    var i := FirstIndex(s, UserWithId(u.id));
    assert s[|users|] == u && UserWithId(u.id)(s[|users|]);
    assert i.Some?;
  }

  /** A board whose members include the caller is among the caller's boards once stored. */
  lemma {:induction false} CreatedBoardIsListed(boards: seq<Board>, b: Board, uid: Id)
    requires uid in b.members
    requires |Filter(boards, HasMember(uid))| < BoardPage
    ensures b in ToList(Filter(boards + [b], HasMember(uid)), BoardPage)
  {
    FilterSnoc(boards, b, HasMember(uid));
    var all := Filter(boards + [b], HasMember(uid));
    assert all[|all| - 1] == b;
  }

  /** The cards the inbox query selects, before sorting and paging. */
  function InboxCards(boards: seq<Board>, cards: seq<Card>, uid: Id): seq<Card> {
    Filter(cards, CardOnBoardIn(BoardIds(ToList(Filter(boards, HasMember(uid)), BoardPage))))
  }

  /**
   * The inbox selects only cards of boards the caller is a member of, and,
   * while the caller's boards fit in one page, every such card.
   */
  lemma InboxCardsAreMemberCards(boards: seq<Board>, cards: seq<Card>, uid: Id)
    ensures forall c :: c in InboxCards(boards, cards, uid) ==> c in cards && IsMember(boards, c.boardId, uid)
    ensures |Filter(boards, HasMember(uid))| <= BoardPage ==>
      forall c :: c in cards && IsMember(boards, c.boardId, uid) ==> c in InboxCards(boards, cards, uid)
  {
    var mine := ToList(Filter(boards, HasMember(uid)), BoardPage);
    var ids := BoardIds(mine);
    forall c | c in InboxCards(boards, cards, uid) ensures c in cards && IsMember(boards, c.boardId, uid) {
      assert c.boardId in ids;
      var b :| b in mine && b.id == c.boardId;
      assert b in Filter(boards, HasMember(uid));
    }
    if |Filter(boards, HasMember(uid))| <= BoardPage {
      forall c | c in cards && IsMember(boards, c.boardId, uid) ensures c in InboxCards(boards, cards, uid) {
        var b :| b in boards && b.id == c.boardId && uid in b.members;
        assert b in mine;
        assert c.boardId in ids;
      }
    }
  }

  /**
   * Deleting a board together with the lists and cards that name it leaves
   * every remaining list and card naming a remaining board.
   */
  lemma CascadeKeepsReferences(boards: seq<Board>, lists: seq<List>, cards: seq<Card>, boardId: Id)
    requires forall l :: l in lists ==> BoardExists(boards, l.boardId)
    requires forall c :: c in cards ==> BoardExists(boards, c.boardId)
    ensures forall l :: l in Filter(lists, Not(ListOnBoard(boardId))) ==>
      BoardExists(RemoveFirst(boards, BoardWithId(boardId)), l.boardId)
    ensures forall c :: c in Filter(cards, Not(CardOnBoard(boardId))) ==>
      BoardExists(RemoveFirst(boards, BoardWithId(boardId)), c.boardId)
  {
    var rest := RemoveFirst(boards, BoardWithId(boardId));
    RemoveFirstKeepsOthers(boards, BoardWithId(boardId));
    forall l | l in Filter(lists, Not(ListOnBoard(boardId))) ensures BoardExists(rest, l.boardId) {
      var b :| b in boards && b.id == l.boardId;
      assert b in rest;
    }
    forall c | c in Filter(cards, Not(CardOnBoard(boardId))) ensures BoardExists(rest, c.boardId) {
      var b :| b in boards && b.id == c.boardId;
      assert b in rest;
    }
  }

  /**
   * Everything the board cascade keeps and removes: the other boards, lists
   * and cards stay, none of the board's lists or cards does, references
   * stay valid, owners stay members, and with distinct ids the board is gone.
   */
  lemma CascadeOutcome(boards: seq<Board>, lists: seq<List>, cards: seq<Card>, boardId: Id)
    requires forall b :: b in boards ==> b.ownerId in b.members
    requires forall l :: l in lists ==> BoardExists(boards, l.boardId)
    requires forall c :: c in cards ==> BoardExists(boards, c.boardId)
    ensures var rest := RemoveFirst(boards, BoardWithId(boardId));
      (forall b :: b in rest ==> b.ownerId in b.members) &&
      (forall b :: b in boards && b.id != boardId ==> b in rest) &&
      (BoardIdsDistinct(boards) ==> forall b :: b in rest ==> b.id != boardId)
    ensures forall l :: l in Filter(lists, Not(ListOnBoard(boardId))) ==>
      l.boardId != boardId && BoardExists(RemoveFirst(boards, BoardWithId(boardId)), l.boardId)
    ensures forall c :: c in Filter(cards, Not(CardOnBoard(boardId))) ==>
      c.boardId != boardId && BoardExists(RemoveFirst(boards, BoardWithId(boardId)), c.boardId)
    ensures forall l :: l in lists && l.boardId != boardId ==> l in Filter(lists, Not(ListOnBoard(boardId)))
    ensures forall c :: c in cards && c.boardId != boardId ==> c in Filter(cards, Not(CardOnBoard(boardId)))
  {
    RemoveFirstKeepsOthers(boards, BoardWithId(boardId));
    CascadeKeepsReferences(boards, lists, cards, boardId);
    if BoardIdsDistinct(boards) {
      RemoveFirstRemovesSoleMatch(boards, BoardWithId(boardId));
    }
  }

  class Store {
    var users: seq<StoredUser>
    var boards: seq<Board>
    var lists: seq<List>
    var cards: seq<Card>

    /**
     * What every handler keeps: no two users share an email, every board's
     * owner is one of its members, and every list and card names a stored board.
     */
    ghost predicate Valid()
      reads this
    {
      EmailsDistinct(users) &&
      (forall b :: b in boards ==> b.ownerId in b.members) &&
      (forall l :: l in lists ==> BoardExists(boards, l.boardId)) &&
      (forall c :: c in cards ==> BoardExists(boards, c.boardId))
    }

    constructor ()
      ensures Valid()
      ensures users == [] && boards == [] && lists == [] && cards == []
    {
      users, boards, lists, cards := [], [], [], [];
    }

    /** POST /auth/register: an email may be registered once. */
    method Register(data: UserCreate, id: Id, passwordHash: string, now: Instant) returns (r: Result<TokenResponse, Error>)
      requires Valid()
      modifies this
      ensures Valid()
      ensures boards == old(boards) && lists == old(lists) && cards == old(cards)
      ensures r.Failure? <==> EmailTaken(old(users), data.email)
      ensures r.Failure? ==> r.error == EmailAlreadyRegistered && users == old(users)
      ensures r.Success? ==>
        users == old(users) + [StoredUser(id, data.email, data.name, passwordHash, now)] &&
        r.value == TokenResponse(id, User(id, data.email, data.name, now))
    {
      if FirstIndex(users, UserWithEmail(data.email)).Some? {
        return Failure(EmailAlreadyRegistered);
      }
      var stored := StoredUser(id, data.email, data.name, passwordHash, now);
      ghost var before := users;
      users := users + [stored];
      forall i, j | 0 <= i < |users| && 0 <= j < |users| && i != j ensures users[i].email != users[j].email {
        if j == |before| {
          assert users[i] in before;
        } else if i == |before| {
          assert users[j] in before;
        }
      }
      r := Success(TokenResponse(id, Public(stored)));
    }

    /** POST /auth/login: the user with that email, if the password matches its hash. */
    method Login(creds: UserLogin, checkPassword: (string, string) -> bool) returns (r: Result<TokenResponse, Error>)
      requires Valid()
      ensures r.Success? <==> exists u :: u in users && u.email == creds.email && checkPassword(creds.password, u.password)
      ensures r.Failure? ==> r.error == InvalidCredentials
      ensures r.Success? ==>
        r.value.user.email == creds.email && r.value.tokenSubject == r.value.user.id &&
        exists u :: u in users && Public(u) == r.value.user && checkPassword(creds.password, u.password)
    {
      var found := FirstIndex(users, UserWithEmail(creds.email));
      if found.None? {
        return Failure(InvalidCredentials);
      }
      var i := found.value;
      forall u | u in users && u.email == creds.email ensures u == users[i] {
        var k :| 0 <= k < |users| && users[k] == u;
      }
      if !checkPassword(creds.password, users[i].password) {
        return Failure(InvalidCredentials);
      }
      var user := Public(users[i]);
      r := Success(TokenResponse(user.id, user));
    }

    /** GET /auth/me: the caller. */
    method GetMe(claim: TokenClaim) returns (r: Result<User, Error>)
      ensures r.Success? <==> claim.Decoded? && exists u :: u in users && u.id == claim.userId
      ensures r.Success? ==> r.value.id == claim.userId && exists u :: u in users && Public(u) == r.value
      ensures r.Failure? ==> r == Failure(Authenticate(users, claim).error)
    {
      r := Authenticate(users, claim);
    }

    /** POST /boards: the caller owns the new board and is its only member. */
    method CreateBoard(claim: TokenClaim, data: BoardCreate, id: Id, now: Instant) returns (r: Result<Board, Error>)
      requires Valid()
      modifies this
      ensures Valid()
      ensures users == old(users) && lists == old(lists) && cards == old(cards)
      ensures r.Success? <==> Authenticate(users, claim).Success?
      ensures r.Failure? ==> r == Failure(Authenticate(users, claim).error) && boards == old(boards)
      ensures r.Success? ==>
        r.value == NewBoard(data, id, claim.userId, now) &&
        boards == old(boards) + [r.value]
    {
      var auth := Authenticate(users, claim);
      if auth.Failure? {
        return Failure(auth.error);
      }
      var caller := auth.value.id;
      var board := NewBoard(data, id, caller, now);
      boards := boards + [board];
      r := Success(board);
    }

    /** GET /boards: the boards the caller is a member of, in stored order, one page. */
    method GetBoards(claim: TokenClaim) returns (r: Result<seq<Board>, Error>)
      ensures r.Success? <==> Authenticate(users, claim).Success?
      ensures r.Failure? ==> r == Failure(Authenticate(users, claim).error)
      ensures r.Success? ==> r.value == ToList(Filter(boards, HasMember(claim.userId)), BoardPage)
      ensures r.Success? ==> forall b :: b in r.value ==> b in boards && claim.userId in b.members
      ensures r.Success? && |Filter(boards, HasMember(claim.userId))| <= BoardPage ==>
        forall b :: b in boards && claim.userId in b.members ==> b in r.value
    {
      var auth := Authenticate(users, claim);
      if auth.Failure? {
        return Failure(auth.error);
      }
      var mine := Filter(boards, HasMember(auth.value.id));
      var page := ToList(mine, BoardPage);
      forall b | b in page ensures b in mine {
        var k :| 0 <= k < |page| && page[k] == b;
        assert b == mine[k];
      }
      r := Success(page);
    }

    /** GET /boards/{id}: the first board with that id that has the caller as a member. */
    method GetBoard(claim: TokenClaim, boardId: Id) returns (r: Result<Board, Error>)
      ensures Authenticate(users, claim).Failure? ==> r == Failure(Authenticate(users, claim).error)
      ensures Authenticate(users, claim).Success? ==>
        (r.Success? <==> IsMember(boards, boardId, claim.userId)) &&
        (r.Failure? ==> r.error == BoardNotFound)
      ensures r.Success? ==>
        r.value in boards && r.value.id == boardId && claim.userId in r.value.members &&
        r.value == boards[FirstIndex(boards, MemberBoard(boardId, claim.userId)).value]
    {
      var auth := Authenticate(users, claim);
      if auth.Failure? {
        return Failure(auth.error);
      }
      var found := FirstIndex(boards, MemberBoard(boardId, auth.value.id));
      if found.None? {
        return Failure(BoardNotFound);
      }
      r := Success(boards[found.value]);
    }

    /**
     * DELETE /boards/{id}: only the owner may delete; the board goes, and so
     * do every list and every card that names it.
     */
    method DeleteBoard(claim: TokenClaim, boardId: Id) returns (r: Result<string, Error>)
      requires Valid()
      modifies this
      ensures Valid()
      ensures users == old(users)
      ensures Authenticate(users, claim).Failure? ==> r == Failure(Authenticate(users, claim).error)
      ensures Authenticate(users, claim).Success? ==>
        (r.Success? <==> IsOwner(old(boards), boardId, claim.userId)) &&
        (r.Failure? ==> r.error == BoardNotFound)
      ensures r.Failure? ==> boards == old(boards) && lists == old(lists) && cards == old(cards)
      ensures r.Success? ==>
        r.value == "Board deleted successfully" &&
        boards == RemoveFirst(old(boards), BoardWithId(boardId)) &&
        lists == Filter(old(lists), Not(ListOnBoard(boardId))) &&
        cards == Filter(old(cards), Not(CardOnBoard(boardId)))
      ensures r.Success? ==>
        (forall l :: l in lists ==> l.boardId != boardId) &&
        (forall c :: c in cards ==> c.boardId != boardId)
      ensures r.Success? ==>
        (forall b :: b in old(boards) && b.id != boardId ==> b in boards) &&
        (forall l :: l in old(lists) && l.boardId != boardId ==> l in lists) &&
        (forall c :: c in old(cards) && c.boardId != boardId ==> c in cards)
      ensures r.Success? && BoardIdsDistinct(old(boards)) ==> forall b :: b in boards ==> b.id != boardId
    {
      var auth := Authenticate(users, claim);
      if auth.Failure? {
        return Failure(auth.error);
      }
      var owned := FirstIndex(boards, OwnedBoard(boardId, auth.value.id));
      if owned.None? {
        return Failure(BoardNotFound);
      }
      assert BoardWithId(boardId)(boards[owned.value]);
      CascadeOutcome(boards, lists, cards, boardId);
      boards := RemoveFirst(boards, BoardWithId(boardId));
      lists := Filter(lists, Not(ListOnBoard(boardId)));
      cards := Filter(cards, Not(CardOnBoard(boardId)));
      r := Success("Board deleted successfully");
    }

    /** POST /lists: only a member of the board may add a list to it. */
    method CreateList(claim: TokenClaim, data: ListCreate, id: Id, now: Instant) returns (r: Result<List, Error>)
      requires Valid()
      modifies this
      ensures Valid()
      ensures users == old(users) && boards == old(boards) && cards == old(cards)
      ensures Authenticate(users, claim).Failure? ==> r == Failure(Authenticate(users, claim).error)
      ensures Authenticate(users, claim).Success? ==>
        (r.Success? <==> IsMember(boards, data.boardId, claim.userId)) &&
        (r.Failure? ==> r.error == BoardNotFound)
      ensures r.Failure? ==> lists == old(lists)
      ensures r.Success? ==>
        r.value == List(id, data.title, data.boardId, data.position, now) &&
        lists == old(lists) + [r.value]
    {
      var auth := Authenticate(users, claim);
      if auth.Failure? {
        return Failure(auth.error);
      }
      var found := FirstIndex(boards, MemberBoard(data.boardId, auth.value.id));
      if found.None? {
        return Failure(BoardNotFound);
      }
      assert boards[found.value] in boards;
      var list := List(id, data.title, data.boardId, data.position, now);
      lists := lists + [list];
      r := Success(list);
    }

    /** GET /lists/{board_id}: the board's lists by ascending position, one page; members only. */
    method GetLists(claim: TokenClaim, boardId: Id) returns (r: Result<seq<List>, Error>)
      ensures Authenticate(users, claim).Failure? ==> r == Failure(Authenticate(users, claim).error)
      ensures Authenticate(users, claim).Success? ==>
        (r.Success? <==> IsMember(boards, boardId, claim.userId)) &&
        (r.Failure? ==> r.error == BoardNotFound)
      ensures r.Success? ==> r.value == ToList(SortBy(Filter(lists, ListOnBoard(boardId)), ByPosition()), ListPage)
      ensures r.Success? ==> forall l :: l in r.value ==> l in lists && l.boardId == boardId
      ensures r.Success? ==> forall i, j :: 0 <= i < j < |r.value| ==> r.value[i].position <= r.value[j].position
      ensures r.Success? && |Filter(lists, ListOnBoard(boardId))| <= ListPage ==>
        multiset(r.value) == multiset(Filter(lists, ListOnBoard(boardId)))
    {
      var auth := Authenticate(users, claim);
      if auth.Failure? {
        return Failure(auth.error);
      }
      var found := FirstIndex(boards, MemberBoard(boardId, auth.value.id));
      if found.None? {
        return Failure(BoardNotFound);
      }
      var mine := Filter(lists, ListOnBoard(boardId));
      SortedPage(mine, ByPosition(), ListPage);
      var page := ToList(SortBy(mine, ByPosition()), ListPage);
      forall i, j | 0 <= i < j < |page| ensures page[i].position <= page[j].position {
        assert ByPosition()(page[i]) <= ByPosition()(page[j]);
      }
      r := Success(page);
    }

    /**
     * DELETE /lists/{id}: any signed-in caller may delete a list; the list
     * goes, and so does every card that names it.
     */
    method DeleteList(claim: TokenClaim, listId: Id) returns (r: Result<string, Error>)
      requires Valid()
      modifies this
      ensures Valid()
      ensures users == old(users) && boards == old(boards)
      ensures Authenticate(users, claim).Failure? ==> r == Failure(Authenticate(users, claim).error)
      ensures Authenticate(users, claim).Success? ==>
        (r.Success? <==> exists l :: l in old(lists) && l.id == listId) &&
        (r.Failure? ==> r.error == ListNotFound)
      ensures r.Failure? ==> lists == old(lists) && cards == old(cards)
      ensures r.Success? ==>
        r.value == "List deleted successfully" &&
        lists == RemoveFirst(old(lists), ListWithId(listId)) &&
        cards == Filter(old(cards), Not(CardInList(listId)))
      ensures r.Success? ==>
        |lists| == |old(lists)| - 1 &&
        (forall c :: c in cards ==> c.listId != listId) &&
        (forall c :: c in old(cards) && c.listId != listId ==> c in cards)
    {
      var auth := Authenticate(users, claim);
      if auth.Failure? {
        return Failure(auth.error);
      }
      var found := FirstIndex(lists, ListWithId(listId));
      if found.None? {
        return Failure(ListNotFound);
      }
      lists := RemoveFirst(lists, ListWithId(listId));
      cards := Filter(cards, Not(CardInList(listId)));
      r := Success("List deleted successfully");
    }

    /**
     * POST /cards: only a member of the board may add a card to it; the card
     * is built from the request with its defaults.
     */
    method CreateCard(claim: TokenClaim, data: CardCreate, id: Id, now: Instant) returns (r: Result<Card, Error>)
      requires Valid()
      modifies this
      ensures Valid()
      ensures users == old(users) && boards == old(boards) && lists == old(lists)
      ensures Authenticate(users, claim).Failure? ==> r == Failure(Authenticate(users, claim).error)
      ensures Authenticate(users, claim).Success? && !IsMember(boards, data.boardId, claim.userId) ==>
        r == Failure(BoardNotFound)
      ensures Authenticate(users, claim).Success? && IsMember(boards, data.boardId, claim.userId) ==>
        r == CardFrom(data, id, now)
      ensures r.Failure? ==> cards == old(cards)
      ensures r.Success? ==> cards == old(cards) + [r.value] && IsMember(boards, r.value.boardId, claim.userId)
    {
      var auth := Authenticate(users, claim);
      if auth.Failure? {
        return Failure(auth.error);
      }
      var found := FirstIndex(boards, MemberBoard(data.boardId, auth.value.id));
      if found.None? {
        return Failure(BoardNotFound);
      }
      assert boards[found.value] in boards;
      r := CardFrom(data, id, now);
      if r.Success? {
        cards := cards + [r.value];
      }
    }

    /** GET /cards/{board_id}: the board's cards in stored order, one page; members only. */
    method GetCards(claim: TokenClaim, boardId: Id) returns (r: Result<seq<Card>, Error>)
      ensures Authenticate(users, claim).Failure? ==> r == Failure(Authenticate(users, claim).error)
      ensures Authenticate(users, claim).Success? ==>
        (r.Success? <==> IsMember(boards, boardId, claim.userId)) &&
        (r.Failure? ==> r.error == BoardNotFound)
      ensures r.Success? ==> r.value == ToList(Filter(cards, CardOnBoard(boardId)), CardPage)
      ensures r.Success? ==> forall c :: c in r.value ==> c in cards && c.boardId == boardId
      ensures r.Success? && |Filter(cards, CardOnBoard(boardId))| <= CardPage ==>
        forall c :: c in cards && c.boardId == boardId ==> c in r.value
    {
      var auth := Authenticate(users, claim);
      if auth.Failure? {
        return Failure(auth.error);
      }
      var found := FirstIndex(boards, MemberBoard(boardId, auth.value.id));
      if found.None? {
        return Failure(BoardNotFound);
      }
      var mine := Filter(cards, CardOnBoard(boardId));
      var page := ToList(mine, CardPage);
      forall c | c in page ensures c in mine {
        var k :| 0 <= k < |page| && page[k] == c;
        assert c == mine[k];
      }
      r := Success(page);
    }

    /**
     * PUT /cards/{id}: any signed-in caller may update a card; the fields the
     * update carries are set on the first card with that id, which is returned.
     */
    method UpdateCard(claim: TokenClaim, cardId: Id, update: CardUpdate, now: Instant) returns (r: Result<Card, Error>)
      requires Valid()
      modifies this
      ensures Valid()
      ensures users == old(users) && boards == old(boards) && lists == old(lists)
      ensures Authenticate(users, claim).Failure? ==> r == Failure(Authenticate(users, claim).error)
      ensures Authenticate(users, claim).Success? ==>
        (r.Success? <==> exists c :: c in old(cards) && c.id == cardId) &&
        (r.Failure? ==> r.error == CardNotFound)
      ensures r.Failure? ==> cards == old(cards)
      ensures r.Success? ==>
        var i := FirstIndex(old(cards), CardWithId(cardId)).value;
        cards == old(cards)[i := ApplyUpdate(old(cards)[i], update, now)] && r.value == cards[i]
      ensures r.Success? && !Supplies(update) ==> cards == old(cards)
    {
      var auth := Authenticate(users, claim);
      if auth.Failure? {
        return Failure(auth.error);
      }
      var found := FirstIndex(cards, CardWithId(cardId));
      if found.None? {
        return Failure(CardNotFound);
      }
      var i := found.value;
      var updated := ApplyUpdate(cards[i], update, now);
      ghost var before := cards;
      cards := cards[i := updated];
      forall c | c in cards ensures BoardExists(boards, c.boardId) {
        var k :| 0 <= k < |cards| && cards[k] == c;
        assert before[k] in before;
      }
      r := Success(cards[i]);
    }

    /** DELETE /cards/{id}: any signed-in caller may delete a card; the first card with that id goes. */
    method DeleteCard(claim: TokenClaim, cardId: Id) returns (r: Result<string, Error>)
      requires Valid()
      modifies this
      ensures Valid()
      ensures users == old(users) && boards == old(boards) && lists == old(lists)
      ensures Authenticate(users, claim).Failure? ==> r == Failure(Authenticate(users, claim).error)
      ensures Authenticate(users, claim).Success? ==>
        (r.Success? <==> exists c :: c in old(cards) && c.id == cardId) &&
        (r.Failure? ==> r.error == CardNotFound)
      ensures r.Failure? ==> cards == old(cards)
      ensures r.Success? ==>
        r.value == "Card deleted successfully" &&
        cards == RemoveFirst(old(cards), CardWithId(cardId)) && |cards| == |old(cards)| - 1
    {
      var auth := Authenticate(users, claim);
      if auth.Failure? {
        return Failure(auth.error);
      }
      var found := FirstIndex(cards, CardWithId(cardId));
      if found.None? {
        return Failure(CardNotFound);
      }
      cards := RemoveFirst(cards, CardWithId(cardId));
      r := Success("Card deleted successfully");
    }

    /**
     * GET /inbox: the cards of the caller's boards, newest first, one page.
     */
    method GetInbox(claim: TokenClaim) returns (r: Result<seq<Card>, Error>)
      ensures r.Success? <==> Authenticate(users, claim).Success?
      ensures r.Failure? ==> r == Failure(Authenticate(users, claim).error)
      ensures r.Success? ==>
        r.value == ToList(SortBy(InboxCards(boards, cards, claim.userId), NewestFirst()), CardPage)
      ensures r.Success? ==> forall c :: c in r.value ==> c in cards && IsMember(boards, c.boardId, claim.userId)
      ensures r.Success? ==> forall i, j :: 0 <= i < j < |r.value| ==> r.value[i].createdAt >= r.value[j].createdAt
      ensures r.Success? && |InboxCards(boards, cards, claim.userId)| <= CardPage ==>
        multiset(r.value) == multiset(InboxCards(boards, cards, claim.userId))
      ensures r.Success? && |Filter(boards, HasMember(claim.userId))| <= BoardPage &&
              |InboxCards(boards, cards, claim.userId)| <= CardPage ==>
        forall c :: c in cards && IsMember(boards, c.boardId, claim.userId) ==> c in r.value
    {
      var auth := Authenticate(users, claim);
      if auth.Failure? {
        return Failure(auth.error);
      }
      var uid := auth.value.id;
      var mine := ToList(Filter(boards, HasMember(uid)), BoardPage);
      var selected := Filter(cards, CardOnBoardIn(BoardIds(mine)));
      assert selected == InboxCards(boards, cards, uid);
      InboxCardsAreMemberCards(boards, cards, uid);
      SortedPage(selected, NewestFirst(), CardPage);
      var page := ToList(SortBy(selected, NewestFirst()), CardPage);
      forall i, j | 0 <= i < j < |page| ensures page[i].createdAt >= page[j].createdAt {
        assert NewestFirst()(page[i]) <= NewestFirst()(page[j]);
      }
      if |selected| <= CardPage {
        forall c | c in selected ensures c in page {
          assert c in multiset(selected);
        }
      }
      r := Success(page);
    }
  }
}
