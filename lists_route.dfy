/**
 * `GET` and `POST /api/lists`. The ordering the database applies is outside
 * this model: `findMany` gives, for the list table, a column name and a
 * direction, the rows in that order, or throws (an unknown column does).
 */
module ListsRoute {
  import opened Common
  import opened Store
  import opened Sessions

  datatype Direction = Asc | Desc

  /** The JSON body of a create; `None` is a field that is absent or null. */
  datatype ListBody = ListBody(title: Option<string>, description: Option<string>)

  /** The columns `GET` selects from a list row; the owner is not among them. */
  datatype ListSummary = ListSummary(id: Id, title: string, description: Option<string>)

  datatype ListsResponse =
    | ListsFound(lists: seq<ListSummary>)
    | ListCreated(list: ListRow)
    | ListsFailed(status: nat, message: string)
    | ListsCrash                                   // an exception escapes the handler

  const DefaultLimit: nat := 10
  const DefaultSort: string := "updatedAt"
  const DefaultOrder: string := "desc"

  /** The `limit` parameter: 10 when absent or empty. */
  function Limit(param: Option<nat>): (limit: nat)
    ensures param.None? ==> limit == DefaultLimit
    ensures param.Some? ==> limit == param.value
  {
    if param.Some? then param.value else DefaultLimit
  }

  /** The `sort` and `order` parameters: their defaults when absent or empty. */
  function OrDefault(param: Option<string>, default: string): (value: string)
    ensures Truthy(param) ==> value == param.value
    ensures !Truthy(param) ==> value == default
  {
    if Truthy(param) then param.value else default
  }

  /** The direction is descending exactly for the text "desc"; anything else ascends. */
  function DirectionOf(order: string): (d: Direction)
    ensures d == Desc <==> order == "desc"
  {
    if order == "desc" then Desc else Asc
  }

  function SummaryOf(row: ListRow): ListSummary
  {
    ListSummary(row.id, row.title, row.description)
  }

  /**
   * `GET`: 404 unless some user is named "user1"; otherwise the first
   * `limit` rows of every list (not only that user's) in the requested
   * order, each given as its id, title and description, or the 500 of a
   * failed query.
   */
  function GetLists(db: Database, limitParam: Option<nat>, sortParam: Option<string>, orderParam: Option<string>,
                    findMany: (map<Id, ListRow>, string, Direction) -> Try<seq<ListRow>>)
    : (r: ListsResponse)
    reads db
    ensures !NameTaken(db.users, "user1") ==> r == ListsFailed(404, "User not found")
    ensures NameTaken(db.users, "user1") ==>
              var limit := Limit(limitParam);
              var rows := findMany(db.lists, OrDefault(sortParam, DefaultSort),
                                   DirectionOf(OrDefault(orderParam, DefaultOrder)));
              && (rows.Throws? ==> r == ListsFailed(500, "Failed to fetch lists"))
              && (rows.Ok? ==> r.ListsFound? && |r.lists| <= limit
                               && (|rows.value| >= limit ==> |r.lists| == limit)
                               && (|rows.value| < limit ==> |r.lists| == |rows.value|)
                               && forall i :: 0 <= i < |r.lists| ==> r.lists[i] == SummaryOf(rows.value[i]))
  {
    if !NameTaken(db.users, "user1") then ListsFailed(404, "User not found")
    else
      var limit := Limit(limitParam);
      match findMany(db.lists, OrDefault(sortParam, DefaultSort), DirectionOf(OrDefault(orderParam, DefaultOrder)))
      case Throws => ListsFailed(500, "Failed to fetch lists")
      case Ok(rows) =>
        var taken := if |rows| <= limit then rows else rows[..limit];
        ListsFound(seq(|taken|, i requires 0 <= i < |taken| => SummaryOf(taken[i])))
  }

  /**
   * `POST`: 401 without a signed-in user and 400 without a title, both
   * writing nothing; otherwise one list owned by the user, with a null
   * description when none was given. An unparsable body escapes; a failed
   * insert is a 500.
   */
  method CreateList(db: Database, locals: Locals, body: Try<ListBody>, newId: Id) returns (r: ListsResponse)
    requires db.Valid()
    modifies db`lists
    ensures db.Valid()
    ensures locals.user.None? ==> r == ListsFailed(401, "Unauthorized")
    ensures locals.user.Some? && body.Throws? ==> r == ListsCrash
    ensures locals.user.Some? && body.Ok? && !Truthy(body.value.title) ==> r == ListsFailed(400, "Title is required")
    ensures locals.user.Some? && body.Ok? && Truthy(body.value.title) ==>
              var row := ListRow(newId, body.value.title.value,
                                 if Truthy(body.value.description) then body.value.description else None,
                                 locals.user.value.id);
              && (newId !in old(db.lists) && row.creatorId in db.users ==>
                    r == ListCreated(row) && db.lists == old(db.lists)[newId := row])
              && (newId in old(db.lists) || row.creatorId !in db.users ==>
                    r == ListsFailed(500, "Failed to create list"))
    ensures !r.ListCreated? ==> db.lists == old(db.lists)
  {
    if locals.user.None? {
      return ListsFailed(401, "Unauthorized");
    }
    var userId := locals.user.value.id;
    if body.Throws? {
      return ListsCrash;
    }
    if !Truthy(body.value.title) {
      return ListsFailed(400, "Title is required");
    }
    var description := if Truthy(body.value.description) then body.value.description else None;
    var row := ListRow(newId, body.value.title.value, description, userId);
    if newId in db.lists || userId !in db.users {
      return ListsFailed(500, "Failed to create list");
    }
    db.lists := db.lists[newId := row];
    r := ListCreated(row);
  }
}
