/** The records the client receives from the server and holds in component state. */
module Entities {
  import opened Http

  /** A folder of images as `/api/folder` returns it: `_id`, `name`, the `isDisabled`
      flag and its `images` (an absent `images` field is an empty list). */
  datatype Folder = Folder(id: string, name: string, isDisabled: bool, images: seq<string>)

  /** A user as `/api/users` returns it. */
  datatype User = User(id: string, username: string, email: string, role: string)

  /** A file picked in the browser: its name and its MIME type (`file.type`). */
  datatype FileRef = FileRef(name: string, mimeType: string)

  const FolderListUrl := "/api/folder"

  /** The folder list request both dashboards make (its bearer is added by the
      gateway). */
  function FolderListRequest(): (r: Request)
    ensures r.verb == "GET" && r.url == FolderListUrl && r.body == NoBody
  {
    ApiRequest("GET", FolderListUrl, NoBody)
  }
}
