# Board store of a Kanban task server, modelled in Dafny

The server keeps users, boards, lists (the columns of a board) and cards (the
tasks in a list) in a document store, and serves them through REST routes.
Registration and login take no token. Every other route identifies the caller
from a bearer token. Most board routes then check access, either membership
(the caller's id is in the board's `members`) or ownership (the caller is the
board's `owner_id`), before they read or change the collections. Deleting a
list and updating or deleting a card check only that the caller is signed in,
so any signed-in user can change or delete any list or card by its id. Deleting a board deletes its lists and cards, and
deleting a list deletes its cards. A card update sets only the fields the
request carries with a non-null value. A separate route asks a language model
to extract tasks from free text and post-processes the reply.

The model has five modules:

- `Wrappers`: `Option` and `Result`.
- `Sequences`: the query semantics of the document store over sequences kept
  in stored order. These are the equality filter (`find`), the first match
  (`find_one`), removing the first match (`delete_one`), removing every match
  (`delete_many`), the cursor sort and the page read (`to_list(n)`).
- `Models`: the stored records and the request bodies with their defaults,
  the errors, building a card from a request, and applying a card update.
- `BoardStore`: the class `Store`, whose four sequence fields are the four
  collections, with one method per route handler. The invariant `Valid()`
  holds three things. No two users share an email. Every board's owner is one
  of its members. Every list and every card names a stored board. Each
  changing method keeps `Valid()` and states its whole new state in terms of
  the old one. Each reading method changes nothing and states its result.
- `TaskExtraction`: Python's `str.strip`, `split('\n')` and `'\n'.join`, the
  code-fence removal, and the fallback answer.

Timestamps, fresh ids, the password hash and the outcome of decoding the
token are inputs to the methods. The password check is a function
parameter, and so is the JSON parser of the extraction route.

## Model

| member | source | states |
|---|---|---|
| Sequences.Filter | server.py:219 | The result holds exactly the documents of the collection that match the filter, and is no longer than it. |
| Sequences.FilterSnoc | server.py:214-219 | Filtering keeps stored order: a document appended to the collection comes last among the matches. |
| Sequences.FilterPartition | server.py:245-246 | `delete_many` removes exactly the matching documents: the kept and the removed ones together are the old collection, duplicates counted. |
| Sequences.FirstIndex | server.py:166 | `find_one` gives the first matching document, or none exactly when no document matches. |
| Sequences.RemoveFirst | server.py:244 | `delete_one` removes exactly one copy of the first match, or nothing when nothing matches. |
| Sequences.RemoveFirstKeepsOthers | server.py:244 | `delete_one` keeps every document that does not match its filter. |
| Sequences.RemoveFirstRemovesSoleMatch | server.py:244 | When at most one document matches, none matches after `delete_one`. |
| Sequences.ToList | server.py:219 | `to_list(n)` is a prefix of the cursor: the whole cursor when it is no longer than n, and exactly its first n documents otherwise. |
| Sequences.SortBy | server.py:269 | The sorted cursor is in ascending key order and is a permutation of the unsorted one. |
| Sequences.SortedPage | server.py:269-356 | A page read from a sorted cursor is sorted and holds only the cursor's documents, all of them when the page is large enough. No document left off the page has a smaller key than one on it, so the inbox page holds the newest cards. |
| Models.Public | server.py:198 | The public profile of a stored user: every field except the password hash (its meaning is stated by `PublicForgetsOnlyPassword`). |
| Models.PublicForgetsOnlyPassword | server.py:198 | Two stored users have the same public profile exactly when they differ at most in their password hash. |
| Models.Status | server.py:159-292 | Not-found errors are 404, token and credential errors are 401, a taken email is 400, and a refused card record is 500. Each status is given for those errors only. |
| Models.Detail | server.py:159-345 | The detail text the source raises with each error (its meaning is stated by `DetailDistinct`). |
| Models.DetailDistinct | server.py:159-345 | Each error has its own detail text, so two errors with the same text are the same error. |
| Models.NewBoard | server.py:208-209 | The board built for a creation request is owned by the caller, whose only member is the caller. It carries the request's title, description and background, and the creation instant as both timestamps. |
| Models.BoardDefaults | server.py:64-71 | A board created from a request with only a title has no description and the background "#e0f7fa". |
| Models.CardCreateWithDefaults | server.py:103-113 | A request with only the required fields carries them unchanged, and its defaults make it always accepted by the card builder. |
| Models.CardFrom | server.py:86-113 | A card record is built from a request exactly when labels and custom fields are not null. It carries every field of the request (title, description, list, board, position, assignees, labels, due date, priority, custom fields), no mirrors, and the creation instant as both timestamps. |
| Models.CardDefaults | server.py:94-113 | A card created from a request with only the required fields has priority "medium", no labels, no description, no assignees, no due date and no custom fields. |
| Models.Supplies | server.py:324-325 | The update's `$set` document is non-empty exactly when the request is not the one with every field null. |
| Models.ApplyUpdate | server.py:324-330 | An update keeps the card's id, board, mirrors and creation instant. An update with no field leaves the card as it was, and any other refreshes the update instant. |
| Models.UpdateSetsOnlySuppliedFields | server.py:324-330 | After an update, each field carried with a value takes that value and every other field is unchanged. id, board, mirrors and creation instant never change. The update instant is refreshed only if some field was carried. |
| Models.EmptyUpdateChangesNothing | server.py:324-325 | An update that carries no non-null field leaves the card exactly as it was. |
| Models.UpdateNeverClears | server.py:324 | An update cannot reset description, assignees, due date or priority to null. |
| Models.UpdateIdempotent | server.py:324-330 | Applying the same update twice at one instant equals applying it once. |
| BoardStore.BoardIds | server.py:354 | The id list holds exactly the ids of the given boards. |
| BoardStore.Authenticate | server.py:154-171 | An expired or malformed token is refused with 401. A valid one identifies the caller exactly when a user with the token's id is stored, and otherwise yields "User not found". |
| BoardStore.IssuedTokenAuthenticates | server.py:180-187 | The token issued at registration identifies the new user as long as its id is fresh. |
| BoardStore.CreatedBoardIsListed | server.py:207-225 | A board whose members include the caller is in the caller's board list once stored, while the caller's boards fit in one page. |
| BoardStore.InboxCards | server.py:353-356 | The inbox query selects cards whose board is one of the first page of the caller's boards. |
| BoardStore.InboxCardsAreMemberCards | server.py:352-356 | The inbox selects only cards of boards the caller is a member of. While those boards fit in one page, it selects every such card. |
| BoardStore.AuthenticatePicksFirstUser | server.py:166-169 | With duplicate ids, the caller is the public profile of the first stored user with the token's id, as `find_one` picks it. |
| BoardStore.CascadeOutcome | server.py:238-247 | The board cascade keeps every other board, list and card, removes every list and card of the board, keeps owners among members and every reference to a board valid, and, with distinct board ids, leaves no board with that id. |
| BoardStore.CascadeKeepsReferences | server.py:238-247 | After the board cascade, every remaining list and card names a remaining board. |
| BoardStore.Store.Register | server.py:174-187 | A taken email fails with "Email already registered" and stores nothing. Otherwise exactly one user with the given fields is appended, the answer carries its public profile and a token for its id, and emails stay distinct. |
| BoardStore.Store.Login | server.py:189-200 | Succeeds exactly when a stored user has that email and the password matches its hash. Otherwise "Invalid credentials". The answer is that user's profile with a token for its id. |
| BoardStore.Store.GetMe | server.py:163-204 | The caller's profile, exactly when the token names a stored user. |
| BoardStore.Store.CreateBoard | server.py:207-215 | For a signed-in caller, appends exactly the board `NewBoard` builds for the request. Nothing else changes, and nothing changes on failure. |
| BoardStore.Store.GetBoards | server.py:217-225 | Only boards whose members include the caller, in stored order, at most 1000 of them, and every such board while they fit in one page. |
| BoardStore.Store.GetBoard | server.py:227-236 | Succeeds exactly when some board with that id has the caller as a member, and gives the first such board. Otherwise "Board not found". |
| BoardStore.Store.DeleteBoard | server.py:238-247 | Anyone but the owner gets "Board not found" and nothing changes. On success no list or card of that board remains. Every other board, list and card is kept. With distinct board ids, no board with that id remains. |
| BoardStore.Store.CreateList | server.py:250-261 | Appends the list exactly when the caller is a member of its board. Otherwise "Board not found" and no list is stored. |
| BoardStore.Store.GetLists | server.py:263-273 | Members only. Gives lists of that board only, in non-decreasing position, at most 1000, and a permutation of all of them when they fit in one page. |
| BoardStore.Store.DeleteList | server.py:275-283 | Any signed-in caller, no membership check. A missing id gives "List not found" and changes nothing. Otherwise it removes one list and exactly the cards with that list id. |
| BoardStore.Store.CreateCard | server.py:286-300 | Non-members get "Board not found" and no card is stored. For members the card built from the request is appended, or the request is refused when labels or custom fields are null. |
| BoardStore.Store.GetCards | server.py:302-316 | Members only. Gives cards of that board only, in stored order, at most 10000, and every such card when they fit in one page. |
| BoardStore.Store.UpdateCard | server.py:318-339 | Any signed-in caller. A missing card gives "Card not found" and changes nothing. Otherwise only the first card with that id is replaced by the update applied to it, and that card is returned. An update without fields changes nothing. |
| BoardStore.Store.DeleteCard | server.py:341-348 | Any signed-in caller. A missing card gives "Card not found" and changes nothing. Otherwise exactly one card, the first with that id, is removed. |
| BoardStore.Store.GetInbox | server.py:351-364 | Only cards of boards the caller is a member of, newest first, at most 10000. When both pages suffice, every such card, as a permutation. |
| TaskExtraction.IsSpace | server.py:385 | Space, tab, newline and carriage return are whitespace. Digits, letters, the backtick, the quote and the brackets that open JSON values are not. |
| TaskExtraction.TrimStart | server.py:385 | Removes only leading whitespace; what remains does not start with whitespace. |
| TaskExtraction.TrimEnd | server.py:385 | Removes only trailing whitespace; what remains does not end with whitespace. |
| TaskExtraction.Strip | server.py:385 | The stripped reply neither starts nor ends with whitespace (Python's whitespace set). |
| TaskExtraction.StripRemovesOnlyWhitespace | server.py:385 | The stripped reply is one contiguous part of the reply, and everything removed around it is whitespace. |
| TaskExtraction.StripIdempotent | server.py:385 | Stripping a stripped reply changes nothing. |
| TaskExtraction.Split | server.py:387 | Splitting gives at least one line, and no line holds a newline. |
| TaskExtraction.Join | server.py:388 | `'\n'.join(lines)`: the lines with one separator between neighbours (its meaning is stated by `JoinEnds`, `JoinSplit` and `SplitJoin`). |
| TaskExtraction.JoinEnds | server.py:388 | `'\n'.join` of at least one line starts with the first line and ends with the last one. |
| TaskExtraction.JoinSplit | server.py:387-388 | Joining the split lines with newlines gives back the text. |
| TaskExtraction.SplitJoin | server.py:387-388 | Splitting lines joined with newlines gives back the lines. |
| TaskExtraction.FirstLineOpensFence | server.py:386-387 | The first line of a fenced reply starts with the whole fence. |
| TaskExtraction.InnerLines | server.py:388 | `lines[1:-1]` has two lines fewer than `lines`, or none when there are fewer than two, and its k-th line is line k + 1 of `lines`. |
| TaskExtraction.CleanReply | server.py:385-389 | A reply that does not open a code fence is parsed as the stripped text. |
| TaskExtraction.FencedReplyDropsOuterLines | server.py:386-388 | A fenced reply loses exactly its first line (the fence) and its last line: the stripped reply is first line, newline, parsed text, newline, last line. With fewer than three lines nothing is left. |
| TaskExtraction.ExtractTasks | server.py:368-395 | Answers with exactly one task, priority "low", titled "Error extracting tasks" and carrying the error message, exactly when the model call or the parse fails. Otherwise it answers with the parse of the cleaned reply and the raw reply. |

## Left out

- The document store client, `async`/`await` and the interleaving of concurrent requests: each handler is one atomic step over in-memory sequences.
- bcrypt: the stored hash is an input to `Register`, and the password check is a function parameter of `Login`.
- JWT encoding, signing and expiry: a token is represented by the outcome of decoding it (`TokenClaim`). A decoded token without a `user_id` claim (an internal error in the source) is not represented.
- `uuid4` and `datetime.now`: the fresh id and the current instant are method parameters. Nothing requires ids to be fresh. The collections may hold duplicate ids, and the model follows the store's first-match semantics. The source reads the clock separately for `created_at` and `updated_at` (server.py:65-66, 100-101). One instant stands for both reads, so the model's two stamps are equal where the source's usually differ slightly.
- The document store does not promise an order for an unsorted `find` or for `find_one`. The model takes it to be insertion order, with `insert_one` appending at the end. "In stored order" (`GetBoards`, `GetCards`, `GetInbox` before sorting) and "the first match" of `FirstIndex` (which document a duplicate id selects) rest on that choice.
- ISO-8601 formatting and the loops in the read handlers that turn stored timestamp text back into datetimes: instants are integers. Their order is the order of the stored text for timestamps in one time zone.
- Request validation by the web framework (a missing field, a malformed email) and email normalisation by `EmailStr`: emails are compared as plain text.
- Custom field values are arbitrary JSON in the source. Here they are text.
- The order of lists with equal positions and of cards with equal creation instants: the store does not promise one. `GetLists` and `GetInbox` give their result as `ToList(SortBy(...))`, and `SortBy` is stable, so in the model ties come in stored order and on a full page the tied documents kept are the earliest stored. The store promises neither. Their other ensures state only the ordering and the permutation.
- The language model call (client setup, prompt, session id) and `json.loads`: the reply or the call's exception message, and the parser, are inputs. The parsed tasks are not validated in the source, and their type is a parameter here.
- The text of exception messages (`str(e)`): an error message is an input string.
- Logging, CORS middleware, the shutdown hook, routing and dependency injection.
- The bearer-header check of `HTTPBearer` (server.py:29, 163): a request with no `Authorization` header, or one that is not a bearer token, is refused before the token is decoded. `TokenClaim` has no case for it, so that refusal and its status are not modelled.
- The `Activity` record and the `board_id` of the extraction request: nothing in the core uses them.
- The test client `backend_test.py`: it issues HTTP requests against a live server and checks status codes only.
- `ExtractTasks` models the route only after authentication: a bad token gets 401 or 404 from `get_current_user` (server.py:368) before the model is called. `Authenticate` models that step.
- The client-side import of extracted tasks onto a board: it is not part of the server code, so it is not part of this model.
