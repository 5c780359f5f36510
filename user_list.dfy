/**
 * The user management table of `client/src/components/UserList.jsx`: the list of
 * users, the edit form, and the handlers that fetch, delete and update users
 * through the `api` gateway.
 */
module UserListPage {
  import opened Wrappers
  import opened Entities
  import opened Http
  import opened Api
  import opened ListOps

  const UsersUrl := "/api/users"
  const UserRemoved := "User removed"
  const FetchFallback := "Error fetching users"
  const DeleteFailed := "Failed to delete user"
  const DeleteFallback := "Error deleting user. Please try again."
  const NoPermission := "You do not have permission to delete users"
  const UpdateFallback := "Error updating user"
  const UnauthorizedStatus := 401
  const ForbiddenStatus := 403

  /** `response.data` of a delete: the server's message. */
  datatype DeleteData = DeleteData(msg: string)

  /** The edit form: a field name to its text. */
  type FormData = map<string, string>

  /** The URL of one user. */
  function UserUrl(userId: string): string
  {
    UsersUrl + "/" + userId
  }

  /** `api.get('/api/users')`: no body. */
  function FetchRequest(): (r: Request)
    ensures r.verb == "GET" && r.url == UsersUrl && r.body == NoBody
    ensures AuthorizationHeader !in r.headers
  {
    ApiRequest("GET", UsersUrl, NoBody)
  }

  /** `api.delete(`/api/users/${userId}`)`: that user's URL and no body. */
  function DeleteRequest(userId: string): (r: Request)
    ensures r.verb == "DELETE" && r.url == "/api/users/" + userId && r.body == NoBody
    ensures AuthorizationHeader !in r.headers
  {
    ApiRequest("DELETE", UserUrl(userId), NoBody)
  }

  /** The update request: the form exactly as it stands. */
  function UpdateRequest(userId: string, form: FormData): (r: Request)
    ensures r.verb == "PUT" && r.url == "/api/users/" + userId
    ensures r.body.Fields? && r.body.fields.Keys == form.Keys
    ensures forall key :: key in form ==> r.body.fields[key] == form[key]
    ensures AuthorizationHeader !in r.headers
  {
    ApiRequest("PUT", UserUrl(userId), Fields(form))
  }

  /** `users.filter(user => user._id !== userId)`: exactly the users with another
      id stay. */
  function RemoveUser(users: seq<User>, userId: string): (r: seq<User>)
    ensures |r| <= |users|
    ensures forall u :: u in r <==> u in users && u.id != userId
  {
    Filter(users, (u: User) => u.id != userId)
  }

  /** `users.map(user => user._id === userId ? updated : user)`: the same list with
      every user of that id replaced by `updated` and every other user in its
      place. */
  function ReplaceUser(users: seq<User>, userId: string, updated: User): (r: seq<User>)
    ensures |r| == |users|
    ensures forall k :: 0 <= k < |users| ==> r[k] == (if users[k].id == userId then updated else users[k])
  {
    if users == [] then []
    else [if users[0].id == userId then updated else users[0]] + ReplaceUser(users[1..], userId, updated)
  }

  /** Deleting a user twice is deleting it once. */
  lemma RemoveUserIdempotent(users: seq<User>, userId: string)
    ensures RemoveUser(RemoveUser(users, userId), userId) == RemoveUser(users, userId)
  {
    FilterIdempotent(users, (u: User) => u.id != userId);
  }

  /** Deleting an id no listed user has leaves the list as it was. */
  lemma RemoveAbsentUser(users: seq<User>, userId: string)
    requires forall k :: 0 <= k < |users| ==> users[k].id != userId
    ensures RemoveUser(users, userId) == users
  {
    FilterKeepsAll(users, (u: User) => u.id != userId);
  }

  /** Updating an id no listed user has leaves the list as it was. */
  lemma ReplaceAbsentUser(users: seq<User>, userId: string, updated: User)
    requires forall k :: 0 <= k < |users| ==> users[k].id != userId
    ensures ReplaceUser(users, userId, updated) == users
  {
  }

  /** An update that keeps the id touches no other user: once that id is deleted
      it leaves no trace. */
  lemma {:induction false} ReplaceThenRemove(users: seq<User>, userId: string, updated: User)
    requires updated.id == userId
    ensures RemoveUser(ReplaceUser(users, userId, updated), userId) == RemoveUser(users, userId)
  {
    if users != [] {
      var r := ReplaceUser(users, userId, updated);
      assert r[1..] == ReplaceUser(users[1..], userId, updated);
      ReplaceThenRemove(users[1..], userId, updated);
    }
  }

  /** Applying the same update twice is applying it once. */
  lemma ReplaceUserIdempotent(users: seq<User>, userId: string, updated: User)
    requires updated.id == userId
    ensures ReplaceUser(ReplaceUser(users, userId, updated), userId, updated) == ReplaceUser(users, userId, updated)
  {
  }

  /** The form `handleEdit` fills from a user. */
  function EditForm(u: User): FormData
  {
    map["username" := u.username, "email" := u.email, "role" := u.role]
  }

  /** The form holds exactly the three editable fields, and reading them back with
      the user's id gives the user. */
  lemma EditFormRoundTrip(u: User)
    ensures EditForm(u).Keys == {"username", "email", "role"}
    ensures User(u.id, EditForm(u)["username"], EditForm(u)["email"], EditForm(u)["role"]) == u
  {
  }

  class UserList {
    var users: seq<User>
    var error: string
    var loading: bool
    var editingUser: Option<string>
    var formData: FormData

    constructor ()
      ensures users == [] && error == "" && loading && editingUser == None
      ensures formData == map["username" := "", "email" := "", "role" := ""]
    {
      users, error, loading, editingUser := [], "", true, None;
      formData := map["username" := "", "email" := "", "role" := ""];
    }

    /** `fetchUsers`: on success the list is the server's, the error is cleared and
        `loading` ends; on failure the server's `msg` or the fallback is shown,
        `loading` ends, and a 401 moves to the login page. */
    method FetchUsers(b: Browser, ex: Exchange<seq<User>>)
      modifies this, b
      ensures var e := Dispatch(old(b.store), FetchRequest(), ex);
              && b.log == old(b.log) + e.calls && b.store == e.store
              && (e.result.Ok? ==>
                    users == e.result.data && error == ""
                    && b.route == (if e.loggedOut then LoginRoute else old(b.route)))
              && (e.result.Fail? ==>
                    && users == old(users) && error == e.result.error.MsgOr(FetchFallback)
                    && b.route == (if e.loggedOut || e.result.error.HasStatus(UnauthorizedStatus)
                                   then LoginRoute else old(b.route)))
      ensures !loading && editingUser == old(editingUser) && formData == old(formData)
    {
      var response := b.Send(FetchRequest(), ex);
      match response {
        case Ok(data) =>
          users := data;
          loading := false;
          error := "";
        case Fail(err) =>
          error := err.MsgOr(FetchFallback);
          loading := false;
          if err.HasStatus(UnauthorizedStatus) {
            b.Navigate(LoginRoute);
          }
      }
    }

    /** `handleDelete`, given the answer to the confirmation dialog:
        - declined, nothing happens and nothing is sent;
        - otherwise one gateway request deletes the user; when the server answers
          "User removed" that user leaves the list and the error is cleared, any
          other answer keeps the list and says the delete failed;
        - a failure shows the server's `msg` or the fallback, a 401 moves to the
          login page, and a 403 says the user lacks the permission. */
    method HandleDelete(b: Browser, confirmed: bool, userId: string, ex: Exchange<DeleteData>)
      modifies this, b
      ensures !confirmed ==>
                && users == old(users) && error == old(error)
                && b.store == old(b.store) && b.log == old(b.log) && b.route == old(b.route)
      ensures confirmed ==>
                var e := Dispatch(old(b.store), DeleteRequest(userId), ex);
                && b.log == old(b.log) + e.calls && b.store == e.store
                && (e.result.Ok? && e.result.data.msg == UserRemoved ==>
                      users == RemoveUser(old(users), userId) && error == "")
                && (e.result.Ok? && e.result.data.msg != UserRemoved ==>
                      users == old(users) && error == DeleteFailed)
                && (e.result.Ok? ==> b.route == (if e.loggedOut then LoginRoute else old(b.route)))
                && (e.result.Fail? ==>
                      && users == old(users)
                      && error == (if e.result.error.HasStatus(ForbiddenStatus) then NoPermission
                                   else e.result.error.MsgOr(DeleteFallback))
                      && b.route == (if e.loggedOut || e.result.error.HasStatus(UnauthorizedStatus)
                                     then LoginRoute else old(b.route)))
      ensures loading == old(loading) && editingUser == old(editingUser) && formData == old(formData)
    {
      if !confirmed {
        return;
      }
      var response := b.Send(DeleteRequest(userId), ex);
      match response {
        case Ok(data) =>
          if data.msg == UserRemoved {
            users := RemoveUser(users, userId);
            error := "";
          } else {
            error := DeleteFailed;
          }
        case Fail(err) =>
          error := err.MsgOr(DeleteFallback);
          if err.HasStatus(UnauthorizedStatus) {
            b.Navigate(LoginRoute);
          } else if err.HasStatus(ForbiddenStatus) {
            error := NoPermission;
          }
      }
    }

    /** `handleEdit`: the row of `u` goes into edit mode with its three fields in
        the form, and the error is cleared. */
    method HandleEdit(u: User)
      modifies this
      ensures editingUser == Some(u.id) && formData == EditForm(u) && error == ""
      ensures users == old(users) && loading == old(loading)
    {
      editingUser := Some(u.id);
      formData := EditForm(u);
      error := "";
    }

    /** `handleUpdate`: the form as it stands goes out in one gateway request; on
        success the server's record takes the place of every user of that id, edit
        mode ends and the error is cleared; on failure the list and the edit mode
        stay, the server's `msg` or the fallback is shown, and a 401 moves to the
        login page. */
    method HandleUpdate(b: Browser, userId: string, ex: Exchange<User>)
      modifies this, b
      ensures var e := Dispatch(old(b.store), UpdateRequest(userId, old(formData)), ex);
              && b.log == old(b.log) + e.calls && b.store == e.store
              && (e.result.Ok? ==>
                    && users == ReplaceUser(old(users), userId, e.result.data)
                    && editingUser == None && error == ""
                    && b.route == (if e.loggedOut then LoginRoute else old(b.route)))
              && (e.result.Fail? ==>
                    && users == old(users) && editingUser == old(editingUser)
                    && error == e.result.error.MsgOr(UpdateFallback)
                    && b.route == (if e.loggedOut || e.result.error.HasStatus(UnauthorizedStatus)
                                   then LoginRoute else old(b.route)))
      ensures loading == old(loading) && formData == old(formData)
    {
      var response := b.Send(UpdateRequest(userId, formData), ex);
      match response {
        case Ok(data) =>
          users := ReplaceUser(users, userId, data);
          editingUser := None;
          error := "";
        case Fail(err) =>
          error := err.MsgOr(UpdateFallback);
          if err.HasStatus(UnauthorizedStatus) {
            b.Navigate(LoginRoute);
          }
      }
    }

    /** `handleChange`: the input named `name` takes the typed value; every other
        field of the form keeps its text. */
    method HandleChange(name: string, value: string)
      modifies this
      ensures formData == old(formData)[name := value]
      ensures users == old(users) && error == old(error) && loading == old(loading)
      ensures editingUser == old(editingUser)
    {
      formData := formData[name := value];
    }
  }
}
