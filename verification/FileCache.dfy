/** The cloud file cache: what live agents answered is kept for lookups while they are offline. */
module FileCache {
  import opened Ordering

  datatype FileInfo = FileInfo(name: string, path: string, sizeBytes: int, isDir: bool)

  /** Primary key of the table. */
  datatype Place = Place(deviceId: string, path: string)

  datatype Row = Row(isDir: bool, sizeBytes: int, content: Option<string>, files: Option<seq<FileInfo>>)

  datatype File = File(content: string, sizeBytes: int)

  /** A FILE_LIST_RESP or FILE_READ_RESP passing through the hub. */
  datatype Response = Listing(at: Place, files: seq<FileInfo>) | Content(at: Place, content: string, sizeBytes: int)

  /** Empty answers, such as errors, are not cached. */
  predicate Cached(r: Response) {
    match r case Listing(_, files) => files != [] case Content(_, content, _) => content != ""
  }

  /** The upserts: on conflict IsDir keeps the value of the first insertion. */
  function Stored(rows: map<Place, Row>, r: Response): Row
  {
    match r
    case Listing(at, files) =>
      if at in rows then rows[at].(files := Some(files)) else Row(true, 0, None, Some(files))
    case Content(at, content, size) =>
      if at in rows then rows[at].(content := Some(content), sizeBytes := size)
      else Row(false, size, Some(content), None)
  }

  function Remember(rows: map<Place, Row>, r: Response): map<Place, Row> {
    if Cached(r) then rows[r.at := Stored(rows, r)] else rows
  }

  function LookupListing(rows: map<Place, Row>, at: Place): Option<seq<FileInfo>> {
    if at in rows && rows[at].isDir then rows[at].files else None
  }

  function LookupFile(rows: map<Place, Row>, at: Place): Option<File> {
    if at in rows && !rows[at].isDir && rows[at].content.Some?
    then Some(File(rows[at].content.value, rows[at].sizeBytes)) else None
  }

  /** The answer to a request for an offline agent. */
  datatype Request = ListReq(at: Place) | ReadReq(at: Place) | OtherReq

  datatype Reply = Files(files: seq<FileInfo>) | Bytes(file: File) | AgentOffline

  class Cache {
    var rows: map<Place, Row>

    constructor ()
      ensures rows == map[]
    {
      rows := map[];
    }

    /** The caching part of routing a response to the controllers. */
    method RouteToControllers(r: Response)
      modifies this
      ensures rows == Remember(old(rows), r)
      // Empty answers leave no trace, others just the column they bring; other places are left alone.
      ensures r.Listing? && r.files == [] ==> rows == old(rows)
      ensures r.Content? && r.content == "" ==> rows == old(rows)
      ensures r.Listing? && r.files != [] ==> r.at in rows && rows[r.at].files == Some(r.files)
      ensures r.Content? && r.content != "" ==>
                r.at in rows && rows[r.at].content == Some(r.content) && rows[r.at].sizeBytes == r.sizeBytes
      ensures forall at | at != r.at :: at in rows <==> at in old(rows)
      ensures forall at | at != r.at && at in rows :: rows[at] == old(rows)[at]
    {
      match r
      case Listing(at, files) =>
        if |files| > 0 {
          rows := rows[at := if at in rows then rows[at].(files := Some(files)) else Row(true, 0, None, Some(files))];
        }
      case Content(at, content, size) =>
        if content != "" {
          rows := rows[at := if at in rows then rows[at].(content := Some(content), sizeBytes := size)
                             else Row(false, size, Some(content), None)];
        }
    }

    /** The offline part of routing a request to its agent. */
    method AnswerOffline(req: Request) returns (reply: Reply)
      ensures reply == match req
                       case ListReq(at) => (match LookupListing(rows, at)
                                             case Some(fs) => Files(fs) case None => AgentOffline)
                       case ReadReq(at) => (match LookupFile(rows, at)
                                             case Some(f) => Bytes(f) case None => AgentOffline)
                       case OtherReq => AgentOffline
    {
      reply := AgentOffline;
      match req
      case ListReq(at) =>
        if at in rows && rows[at].isDir && rows[at].files.Some? {
          reply := Files(rows[at].files.value);
        }
      case ReadReq(at) =>
        if at in rows && !rows[at].isDir && rows[at].content.Some? {
          reply := Bytes(File(rows[at].content.value, rows[at].sizeBytes));
        }
      case OtherReq =>
    }
  }

  // ---- Against the history of answers ----

  function Replay(rs: seq<Response>): map<Place, Row> {
    if rs == [] then map[] else Remember(Replay(rs[..|rs| - 1]), rs[|rs| - 1])
  }

  /** The first non-empty answer about a place. */
  function First(rs: seq<Response>, at: Place): Option<Response> {
    if rs == [] then None
    else if First(rs[..|rs| - 1], at).Some? then First(rs[..|rs| - 1], at)
    else if Cached(rs[|rs| - 1]) && rs[|rs| - 1].at == at then Some(rs[|rs| - 1])
    else None
  }

  function LatestListing(rs: seq<Response>, at: Place): Option<seq<FileInfo>> {
    if rs == [] then None
    else
      var r := rs[|rs| - 1];
      if r.Listing? && Cached(r) && r.at == at then Some(r.files) else LatestListing(rs[..|rs| - 1], at)
  }

  function LatestFile(rs: seq<Response>, at: Place): Option<File> {
    if rs == [] then None
    else
      var r := rs[|rs| - 1];
      if r.Content? && Cached(r) && r.at == at then Some(File(r.content, r.sizeBytes))
      else LatestFile(rs[..|rs| - 1], at)
  }

  /** Every row is the history of its place: its kind is that of the first answer, its columns the latest ones. */
  lemma {:induction false} RowIsHistory(rs: seq<Response>, at: Place)
    ensures var rows := Replay(rs);
            && (at in rows <==> First(rs, at).Some?)
            && (at in rows ==>
                  && rows[at].isDir == First(rs, at).value.Listing?
                  && rows[at].files == LatestListing(rs, at)
                  && rows[at].content ==
                     (if LatestFile(rs, at).Some? then Some(LatestFile(rs, at).value.content) else None)
                  && (LatestFile(rs, at).Some? ==> rows[at].sizeBytes == LatestFile(rs, at).value.sizeBytes))
            && (at !in rows ==> LatestListing(rs, at).None? && LatestFile(rs, at).None?)
  {
    if rs != [] {
      RowIsHistory(rs[..|rs| - 1], at);
    }
  }

  /**
   An offline lookup gives the latest non-empty live answer of its kind exactly when the first
   non-empty answer about the place was of that kind, or there was none of that kind at all.
   */
  lemma LookupIsLatestIff(rs: seq<Response>, at: Place)
    ensures LookupListing(Replay(rs), at) == LatestListing(rs, at)
       <==> LatestListing(rs, at).None? || (First(rs, at).Some? && First(rs, at).value.Listing?)
    ensures LookupFile(Replay(rs), at) == LatestFile(rs, at)
       <==> LatestFile(rs, at).None? || (First(rs, at).Some? && First(rs, at).value.Content?)
  {
    RowIsHistory(rs, at);
  }

  /** A directory listed once and then read as a file: the file is never served. */
  lemma FileHiddenByListing(listing: Response, file: Response)
    requires listing.Listing? && file.Content? && Cached(listing) && Cached(file) && listing.at == file.at
    ensures LatestFile([listing, file], file.at) == Some(File(file.content, file.sizeBytes))
    ensures LookupFile(Replay([listing, file]), file.at) == None
  {
    assert [listing, file][..1] == [listing] && [listing][..0] == [];
    assert Replay([listing]) == Remember(map[], listing);
  }

  /** A place answered only as a directory, or only as a file, is always served its latest answer. */
  lemma OneKindIsLatest(rs: seq<Response>, at: Place)
    requires || (forall i | 0 <= i < |rs| && rs[i].at == at :: rs[i].Listing?)
             || (forall i | 0 <= i < |rs| && rs[i].at == at :: rs[i].Content?)
    ensures LookupListing(Replay(rs), at) == LatestListing(rs, at)
    ensures LookupFile(Replay(rs), at) == LatestFile(rs, at)
  {
    LookupIsLatestIff(rs, at);
    OfOneKind(rs, at);
  }

  lemma {:induction false} OfOneKind(rs: seq<Response>, at: Place)
    ensures (forall i | 0 <= i < |rs| && rs[i].at == at :: rs[i].Listing?) ==>
              LatestFile(rs, at).None? && (First(rs, at).Some? ==> First(rs, at).value.Listing?)
    ensures (forall i | 0 <= i < |rs| && rs[i].at == at :: rs[i].Content?) ==>
              LatestListing(rs, at).None? && (First(rs, at).Some? ==> First(rs, at).value.Content?)
  {
    RowIsHistory(rs, at);
    if rs != [] {
      var n := |rs| - 1;
      OfOneKind(rs[..n], at);
      assert forall i | 0 <= i < n :: rs[..n][i] == rs[i];
    }
  }
}
