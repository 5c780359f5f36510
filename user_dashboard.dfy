/**
 * The folder list of `client/src/components/UserDashboard.jsx`: on mount it
 * fetches the folders through the `api` gateway and shows only the active ones.
 */
module UserDashboardPage {
  import opened Wrappers
  import opened Entities
  import opened Http
  import opened Api
  import opened ListOps

  const NotAuthenticated := "Not authenticated. Please log in again."
  const AuthFailed := "Authentication failed. Please log in again."
  const LoadFallback := "Error loading folders"
  const UnauthorizedStatus := 401

  /** A folder a user may see: not disabled and holding at least one image. */
  predicate IsActive(f: Folder)
  {
    !f.isDisabled && |f.images| > 0
  }

  /** The folders the dashboard shows for the list the server sent. */
  function ActiveFolders(data: seq<Folder>): (r: seq<Folder>)
    ensures |r| <= |data|
    ensures forall f :: f in r <==> f in data && !f.isDisabled && |f.images| > 0
  {
    Filter(data, IsActive)
  }

  /** "No folders available" is shown exactly when the server sent no active
      folder. */
  lemma NoFoldersIff(data: seq<Folder>)
    ensures ActiveFolders(data) == [] <==> forall k :: 0 <= k < |data| ==> !IsActive(data[k])
  {
    if exists k :: 0 <= k < |data| && IsActive(data[k]) {
      var k :| 0 <= k < |data| && IsActive(data[k]);
      assert data[k] in ActiveFolders(data);
    }
    var r := ActiveFolders(data);
    if r != [] {
      assert r[0] in data;
      var k :| 0 <= k < |data| && data[k] == r[0];
      assert IsActive(data[k]);
    }
  }

  /** The shown folders keep the server's order: the folders of a list that is the
      concatenation of two lists are the folders of the first, then those of the
      second. */
  lemma ActiveFoldersKeepOrder(xs: seq<Folder>, ys: seq<Folder>)
    ensures ActiveFolders(xs + ys) == ActiveFolders(xs) + ActiveFolders(ys)
  {
    FilterConcat(xs, ys, IsActive);
  }

  /** A list that is already all active is shown as it is. */
  lemma ActiveFoldersStable(data: seq<Folder>)
    ensures ActiveFolders(ActiveFolders(data)) == ActiveFolders(data)
  {
    FilterIdempotent(data, IsActive);
  }

  class UserDashboard {
    var folders: seq<Folder>
    var error: Option<string>
    var loading: bool

    constructor ()
      ensures folders == [] && error == None && loading
    {
      folders, error, loading := [], None, true;
    }

    /** `fetchFolders`, given the server's answers:
        - with no access token stored, the page says so and sends nothing;
        - otherwise exactly one gateway request for the list goes out; on success
          the active folders are shown in the server's order;
        - a 401 says the authentication failed and removes the four session keys
          (the page does not navigate itself);
        - any other failure shows the server's `msg` or "Error loading folders";
        - `loading` ends off on every path. */
    method FetchFolders(b: Browser, ex: Exchange<seq<Folder>>)
      modifies this, b
      ensures !Has(old(b.store), AccessToken) ==>
                && error == Some(NotAuthenticated) && folders == old(folders)
                && b.store == old(b.store) && b.log == old(b.log) && b.route == old(b.route)
      ensures Has(old(b.store), AccessToken) ==>
                var e := Dispatch(old(b.store), FolderListRequest(), ex);
                && b.log == old(b.log) + e.calls
                && b.route == (if e.loggedOut then LoginRoute else old(b.route))
                && (e.result.Ok? ==>
                      folders == ActiveFolders(e.result.data) && error == old(error) && b.store == e.store)
                && (e.result.Fail? && e.result.error.HasStatus(UnauthorizedStatus) ==>
                      error == Some(AuthFailed) && folders == old(folders) && b.store == ClearSession(e.store))
                && (e.result.Fail? && !e.result.error.HasStatus(UnauthorizedStatus) ==>
                      && error == Some(e.result.error.MsgOr(LoadFallback))
                      && folders == old(folders) && b.store == e.store)
      ensures !loading
    {
      if !Has(b.store, AccessToken) {
        error := Some(NotAuthenticated);
        loading := false;
        return;
      }
      var response := b.Send(FolderListRequest(), ex);
      match response {
        case Ok(data) =>
          folders := ActiveFolders(data);
        case Fail(err) =>
          if err.HasStatus(UnauthorizedStatus) {
            error := Some(AuthFailed);
            b.RemoveSessionKeys();
          } else {
            error := Some(err.MsgOr(LoadFallback));
          }
      }
      loading := false;
    }
  }
}
