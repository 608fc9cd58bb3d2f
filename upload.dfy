/** The upload route: a file and a purpose are checked, the bytes are put in the object store,
    and a row of `files` records where they went; a file is deleted from the object store
    before its row is removed, and read back by its id. The object store is a foreign service:
    its answers (the url of a put, whether a delete succeeds) are parameters. */
module Upload {
  import opened Wrappers
  import opened Sql
  import opened Http
  import opened FilePolicy

  /** The route's own size limit, the same for every purpose. */
  const RouteLimit: nat := 5 * MB

  /** What `validTypes[purpose]` finds: one of the three lists, nothing, or a property every
      object inherits from `Object.prototype`, which has no `includes` to call. Calling it
      throws a TypeError that the route's own `catch` (upload.ts:55-58) answers with 500. */
  datatype TypesEntry = Listed(types: seq<string>) | Missing | Inherited

  const InheritedNames: set<string> := {
    "constructor", "hasOwnProperty", "isPrototypeOf", "propertyIsEnumerable", "toLocaleString",
    "toString", "valueOf", "__proto__", "__defineGetter__", "__defineSetter__", "__lookupGetter__",
    "__lookupSetter__"
  }

  /** `validTypes`: it lists, under each purpose's name, the same types as the middleware's
      policy table. */
  function ValidTypes(purpose: string): (r: TypesEntry)
    ensures r.Listed? <==> exists p :: PurposeName(p) == purpose
    ensures forall p :: PurposeName(p) == purpose ==> r == Listed(PolicyOf(p).allowedTypes)
    ensures r.Inherited? <==> purpose in InheritedNames
  {
    assert PurposeName(ProfilePicture) == "profile" && PurposeName(ContributionProof) == "contribution";
    assert PurposeName(Document) == "document";
    if purpose == "profile" then Listed([Jpeg, Png])
    else if purpose == "contribution" then Listed([Jpeg, Png, Pdf])
    else if purpose == "document" then Listed([Pdf, Msword, Docx])
    else if purpose in InheritedNames then Inherited
    else Missing
  }

  // ---------------------------------------------------------------------------------------
  // The object store.

  datatype BlobCall = PutCall | DelCall(url: string)

  /** The object store: the urls it holds, and the calls made on it, in order. */
  class BlobStore {
    var blobs: set<string>
    var calls: seq<BlobCall>

    constructor ()
      ensures blobs == {} && calls == []
    {
      blobs := {};
      calls := [];
    }

    /** `put`: the store keeps the bytes under the url it answers with; `answer` is that url,
        or `None` when the call throws. */
    method Put(answer: Option<string>)
      modifies this
      ensures calls == old(calls) + [PutCall]
      ensures blobs == if answer.Some? then old(blobs) + {answer.value} else old(blobs)
    {
      calls := calls + [PutCall];
      if answer.Some? {
        blobs := blobs + {answer.value};
      }
    }

    /** `del`: the blob is gone when `ok`; when the call throws the store is as it was. */
    method Del(url: string, ok: bool)
      modifies this
      ensures calls == old(calls) + [DelCall(url)]
      ensures blobs == if ok then old(blobs) - {url} else old(blobs)
    {
      calls := calls + [DelCall(url)];
      if ok {
        blobs := blobs - {url};
      }
    }
  }

  // ---------------------------------------------------------------------------------------
  // The `files` table.

  /** A row of `files`. Positional binding can put any value in any column, so each column
      keeps a `SqlValue`; `rowid` is SQLite's own row number, which `lastID` reports. */
  datatype FileRow = FileRow(rowid: int, id: SqlValue, url: SqlValue, filename: SqlValue, size: SqlValue,
                             kind: SqlValue, purpose: SqlValue, userId: SqlValue)

  function MaxRowid(rows: seq<FileRow>): (r: int)
    ensures r >= 0
    ensures forall i | 0 <= i < |rows| :: rows[i].rowid <= r
  {
    if rows == [] then 0
    else
      var rest := MaxRowid(rows[1..]);
      assert forall i | 1 <= i < |rows| :: rows[i] == rows[1..][i - 1];
      if rows[0].rowid > rest then rows[0].rowid else rest
  }

  /** The value bound to the `k`-th placeholder: a placeholder with no value binds NULL. */
  function Param(params: seq<SqlValue>, k: nat): SqlValue {
    if k < |params| then params[k] else SqlNull
  }

  /** `INSERT INTO files (id, url, filename, size, type, purpose, user_id) VALUES (?, ?, ?, ?,
      ?, ?, ?)` with `params` bound by position. Every column but `id` is NOT NULL; `id` is the
      TEXT primary key, which SQLite lets be NULL, and a non-NULL id must be new. The new row
      takes the next row number. */
  function Inserted(rows: seq<FileRow>, params: seq<SqlValue>): (r: Option<FileRow>)
    ensures r.Some? <==>
      && (forall k | 1 <= k < 7 :: !Param(params, k).SqlNull?)
      && (Param(params, 0).SqlNull? || forall i | 0 <= i < |rows| :: rows[i].id != TextAffinity(Param(params, 0)))
    ensures r.Some? ==>
      r.value == FileRow(MaxRowid(rows) + 1, TextAffinity(Param(params, 0)), TextAffinity(Param(params, 1)),
                         TextAffinity(Param(params, 2)), NumericAffinity(Param(params, 3)),
                         TextAffinity(Param(params, 4)), TextAffinity(Param(params, 5)), TextAffinity(Param(params, 6)))
  {
    var id := TextAffinity(Param(params, 0));
    if Param(params, 1).SqlNull? || Param(params, 2).SqlNull? || Param(params, 3).SqlNull?
       || Param(params, 4).SqlNull? || Param(params, 5).SqlNull? || Param(params, 6).SqlNull? then None
    else if !id.SqlNull? && exists i | 0 <= i < |rows| :: rows[i].id == id then None
    else
      Some(FileRow(MaxRowid(rows) + 1, id, TextAffinity(Param(params, 1)), TextAffinity(Param(params, 2)),
                   NumericAffinity(Param(params, 3)), TextAffinity(Param(params, 4)),
                   TextAffinity(Param(params, 5)), TextAffinity(Param(params, 6))))
  }

  /** The row with this id: the path text meets the TEXT key as text. */
  function FindFile(rows: seq<FileRow>, fileId: string): (r: Option<nat>)
    ensures r.Some? ==> r.value < |rows| && rows[r.value].id == SqlText(fileId)
    ensures r.None? ==> forall i | 0 <= i < |rows| :: rows[i].id != SqlText(fileId)
  {
    if rows == [] then None
    else if rows[0].id == SqlText(fileId) then Some(0)
    else
      var rest := FindFile(rows[1..], fileId);
      assert forall i | 1 <= i < |rows| :: rows[i] == rows[1..][i - 1];
      if rest.Some? then Some(rest.value + 1) else None
  }

  class FileTable {
    var rows: seq<FileRow>

    constructor ()
      ensures rows == []
    {
      rows := [];
    }

    /** The keys: row numbers are distinct, and so are the ids that are not NULL. */
    predicate Valid()
      reads this
    {
      forall i, j | 0 <= i < j < |rows| ::
        rows[i].rowid != rows[j].rowid && (rows[i].id.SqlNull? || rows[i].id != rows[j].id)
    }

    method Insert(row: FileRow)
      requires Valid() && row.rowid == MaxRowid(rows) + 1
      requires row.id.SqlNull? || forall i | 0 <= i < |rows| :: rows[i].id != row.id
      modifies this
      ensures Valid()
      ensures rows == old(rows) + [row]
    {
      rows := rows + [row];
    }

    method Remove(i: nat)
      requires Valid() && i < |rows|
      modifies this
      ensures Valid()
      ensures rows == old(rows[..i] + rows[i + 1..])
    {
      ghost var before := rows;
      rows := rows[..i] + rows[i + 1..];
      assert forall j | 0 <= j < |rows| :: rows[j] == if j < i then before[j] else before[j + 1];
    }
  }

  /** The two stores agree: every row names a blob the object store holds, under its own url
      as its id; so no two rows name the same blob. */
  predicate Consistent(store: BlobStore, table: FileTable)
    reads store, table
  {
    forall i | 0 <= i < |table.rows| ::
      table.rows[i].url.SqlText? && table.rows[i].id == table.rows[i].url && table.rows[i].url.t in store.blobs
  }

  // ---------------------------------------------------------------------------------------
  // The route.

  /** The owner every upload records, in place of the signed-in user. */
  const Owner := "temp-user-id"

  /** The values the insert binds, as intended: the blob's url as the id, then the url, the
      name, size and type of the file, the purpose and the owner. */
  function Record(url: string, file: IncomingFile, purpose: string): seq<SqlValue> {
    [SqlText(url), SqlText(url), SqlText(file.originalName), SqlInt(file.size), SqlText(file.mimetype),
     SqlText(purpose), SqlText(Owner)]
  }

  /** The values the insert binds as written: six values for seven placeholders, the first of
      them meant for `url`. */
  function RecordAsWritten(url: string, file: IncomingFile, purpose: string): seq<SqlValue> {
    [SqlText(url), SqlText(file.originalName), SqlInt(file.size), SqlText(file.mimetype), SqlText(purpose),
     SqlText(Owner)]
  }

  /** As written, `user_id` binds NULL, so the insert fails on every upload, after the put. */
  lemma RecordAsWrittenRefused(rows: seq<FileRow>, url: string, file: IncomingFile, purpose: string)
    ensures Inserted(rows, RecordAsWritten(url, file, purpose)).None?
  {
    assert Param(RecordAsWritten(url, file, purpose), 6) == SqlNull;
  }

  /** As intended, the insert stores the upload unless a row already has its url. */
  lemma RecordStored(rows: seq<FileRow>, url: string, file: IncomingFile, purpose: string)
    ensures var row := Inserted(rows, Record(url, file, purpose));
      && (row.Some? <==> forall i | 0 <= i < |rows| :: rows[i].id != SqlText(url))
      && (row.Some? ==> row.value == FileRow(MaxRowid(rows) + 1, SqlText(url), SqlText(url), SqlText(file.originalName),
                                            SqlInt(file.size), SqlText(file.mimetype), SqlText(purpose), SqlText(Owner)))
  {
    var ps := Record(url, file, purpose);
    assert Param(ps, 0) == SqlText(url) && Param(ps, 1) == SqlText(url);
    assert Param(ps, 2) == SqlText(file.originalName) && Param(ps, 3) == SqlInt(file.size);
    assert Param(ps, 4) == SqlText(file.mimetype) && Param(ps, 5) == SqlText(purpose) && Param(ps, 6) == SqlText(Owner);
  }

  /** The reply of a successful upload. */
  datatype Uploaded = Uploaded(url: string, fileId: int, filename: string, size: nat)

  /** Whether the route forwards a file to the object store: a file and a truthy purpose,
      within the route's limit, of a type the purpose lists. */
  predicate Forwards(file: Option<IncomingFile>, purpose: Option<string>) {
    && file.Some? && file.value.size <= RouteLimit && purpose.Some? && purpose.value != ""
    && ValidTypes(purpose.value).Listed? && file.value.mimetype in ValidTypes(purpose.value).types
  }

  /** What `POST /` answers before any call on the object store: the upload library refuses
      a file over the route's limit before the handler runs (a 500); a missing file or a falsy
      purpose is a 400; a purpose inherited from `Object.prototype` throws (a 500); a type the
      purpose does not list is a 400. `None` when the file goes on to the object store. */
  function Screen(file: Option<IncomingFile>, purpose: Option<string>): (r: Option<Reply<Uploaded>>)
    ensures r.None? <==> Forwards(file, purpose)
    ensures file.Some? && file.value.size > RouteLimit ==> r == Some(ServerError)
    ensures file.Some? && file.value.size <= RouteLimit && (purpose.None? || purpose.value == "") ==>
      r == Some(Refused(400, "File and purpose are required"))
    ensures file.None? ==> r == Some(Refused(400, "File and purpose are required"))
    ensures file.Some? && file.value.size <= RouteLimit && purpose.Some? && purpose.value != "" ==>
      var entry := ValidTypes(purpose.value);
      && (entry.Inherited? ==> r == Some(ServerError))
      && (entry.Missing? || (entry.Listed? && file.value.mimetype !in entry.types) ==>
            r == Some(Refused(400, "Invalid file type")))
  {
    if file.Some? && file.value.size > RouteLimit then Some(ServerError)
    else if file.None? || purpose.None? || purpose.value == "" then Some(Refused(400, "File and purpose are required"))
    else
      var entry := ValidTypes(purpose.value);
      if entry.Inherited? then Some(ServerError)
      else if !(entry.Listed? && file.value.mimetype in entry.types) then Some(Refused(400, "Invalid file type"))
      else None
  }

  /** `POST /` with the insert as intended: a request `Screen` refuses makes no call on either
      store. Otherwise the file is put, and only after the put answers is the row inserted;
      when the insert fails, the blob stays in the store. `answer` is the object store's
      answer to the put. */
  method UploadFile(store: BlobStore, table: FileTable, file: Option<IncomingFile>, purpose: Option<string>,
                    answer: Option<string>) returns (r: Reply<Uploaded>)
    requires table.Valid() && Consistent(store, table)
    modifies store, table
    ensures table.Valid() && Consistent(store, table)
    ensures !Forwards(file, purpose) ==>
      && Screen(file, purpose) == Some(r)
      && store.blobs == old(store.blobs) && store.calls == old(store.calls) && table.rows == old(table.rows)
    ensures Forwards(file, purpose) ==>
      && store.calls == old(store.calls) + [PutCall]
      && (answer.None? ==> r == ServerError && store.blobs == old(store.blobs) && table.rows == old(table.rows))
      && (answer.Some? ==>
            var row := Inserted(old(table.rows), Record(answer.value, file.value, purpose.value));
            && store.blobs == old(store.blobs) + {answer.value}
            && (row.None? ==> r == ServerError && table.rows == old(table.rows))
            && (row.Some? ==> r == Success(200, Uploaded(answer.value, row.value.rowid, file.value.originalName, file.value.size))
                              && table.rows == old(table.rows) + [row.value]))
  {
    var refused := Screen(file, purpose);
    if refused.Some? {
      return refused.value;
    }
    store.Put(answer);
    if answer.None? {
      return ServerError;
    }
    var url := answer.value;
    var row := Inserted(table.rows, Record(url, file.value, purpose.value));
    if row.None? {
      return ServerError;
    }
    RecordStored(table.rows, url, file.value, purpose.value);
    table.Insert(row.value);
    r := Success(200, Uploaded(url, row.value.rowid, file.value.originalName, file.value.size));
  }

  /** `POST /` as written: the insert binds six values for seven placeholders, so every
      upload `Screen` lets through ends in a 500 after exactly one put, with no row stored;
      a put that answers leaves its blob in the store, named by no new row. */
  method UploadFileAsWritten(store: BlobStore, table: FileTable, file: Option<IncomingFile>, purpose: Option<string>,
                             answer: Option<string>) returns (r: Reply<Uploaded>)
    requires table.Valid() && Consistent(store, table)
    modifies store, table
    ensures table.Valid() && Consistent(store, table)
    ensures table.rows == old(table.rows)
    ensures !Forwards(file, purpose) ==>
      Screen(file, purpose) == Some(r) && store.blobs == old(store.blobs) && store.calls == old(store.calls)
    ensures Forwards(file, purpose) ==>
      && r == ServerError
      && store.calls == old(store.calls) + [PutCall]
      && store.blobs == if answer.Some? then old(store.blobs) + {answer.value} else old(store.blobs)
  {
    var refused := Screen(file, purpose);
    if refused.Some? {
      return refused.value;
    }
    store.Put(answer);
    if answer.None? {
      return ServerError;
    }
    var url := answer.value;
    var row := Inserted(table.rows, RecordAsWritten(url, file.value, purpose.value));
    RecordAsWrittenRefused(table.rows, url, file.value, purpose.value);
    if row.Some? {
      // The engine refuses the row: the branch that would store it and answer 200 is dead.
      assert false;
    }
    r := ServerError;
  }

  /** `DELETE /:fileId`: a 404 without any call on the object store when no row has the id;
      otherwise the blob is deleted first, and the row only when that succeeds; when it
      throws, the row stays and can be deleted again. `ok` is the object store's answer. */
  method DeleteFile(store: BlobStore, table: FileTable, fileId: string, ok: bool) returns (r: Reply<string>)
    requires table.Valid() && Consistent(store, table)
    modifies store, table
    ensures table.Valid() && Consistent(store, table)
    ensures var i := FindFile(old(table.rows), fileId);
      if i.None? then
        r == Refused(404, "File not found")
        && store.blobs == old(store.blobs) && store.calls == old(store.calls) && table.rows == old(table.rows)
      else
        var url := old(table.rows)[i.value].url.t;
        && store.calls == old(store.calls) + [DelCall(url)]
        && (!ok ==> r == ServerError && store.blobs == old(store.blobs) && table.rows == old(table.rows))
        && (ok ==> r == Success(200, "File deleted successfully") && store.blobs == old(store.blobs) - {url}
                   && table.rows == old(table.rows)[..i.value] + old(table.rows)[i.value + 1..])
  {
    var i := FindFile(table.rows, fileId);
    if i.None? {
      return Refused(404, "File not found");
    }
    var url := table.rows[i.value].url.t;
    store.Del(url, ok);
    if !ok {
      return ServerError;
    }
    ghost var before := table.rows;
    table.Remove(i.value);
    assert forall j | 0 <= j < |table.rows| :: table.rows[j] == if j < i.value then before[j] else before[j + 1];
    r := Success(200, "File deleted successfully");
  }

  /** `GET /:fileId`: the stored url of the row with that id, or a 404. */
  function GetFile(rows: seq<FileRow>, fileId: string): (r: Reply<SqlValue>)
    ensures r.Success? <==> exists i | 0 <= i < |rows| :: rows[i].id == SqlText(fileId)
    ensures r.Success? ==> r.code == 200 && exists i | 0 <= i < |rows| :: rows[i].id == SqlText(fileId) && r.value == rows[i].url
    ensures !r.Success? ==> r == Refused(404, "File not found")
  {
    var i := FindFile(rows, fileId);
    if i.Some? then Success(200, rows[i.value].url) else Refused(404, "File not found")
  }

  /** Reading back a file the route stored gives its url. */
  lemma GetAfterUpload(rows: seq<FileRow>, row: FileRow, url: string)
    requires row.id == SqlText(url) && row.url == SqlText(url)
    requires forall i | 0 <= i < |rows| :: rows[i].id != SqlText(url)
    ensures GetFile(rows + [row], url) == Success(200, SqlText(url))
  {
    var all := rows + [row];
    assert all[|rows|] == row;
    var i := FindFile(all, url).value;
    assert i == |rows|;
  }

  /** Once the row is removed, reading the file is a 404: ids are distinct. */
  lemma GetAfterDelete(rows: seq<FileRow>, i: nat, fileId: string)
    requires i < |rows| && rows[i].id == SqlText(fileId)
    requires forall a, b | 0 <= a < b < |rows| :: rows[a].id.SqlNull? || rows[a].id != rows[b].id
    ensures GetFile(rows[..i] + rows[i + 1..], fileId) == Refused(404, "File not found")
  {
    var rest := rows[..i] + rows[i + 1..];
    forall j | 0 <= j < |rest| ensures rest[j].id != SqlText(fileId) {
      if j < i {
        assert rest[j] == rows[j];
      } else {
        assert rest[j] == rows[j + 1];
      }
    }
  }

  /** A file the route forwards also passes the middleware's policy for the same purpose:
      the route lists the same types and its limit is the lowest ceiling. */
  lemma ForwardedPassesPolicy(file: IncomingFile, p: Purpose, timestamp: string)
    requires Forwards(Some(file), Some(PurposeName(p)))
    ensures ValidateFile(p, Some(file), timestamp).Accepted?
  {
  }
}
