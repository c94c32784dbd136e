/**
 * Model of src/controllers/reportController.js: the request check, the
 * pipeline users -> ids -> posts -> stats -> rows -> report, and the
 * response. The two awaited fetches are parameters, the simulated e-mail
 * (console output only) is not modelled.
 */
module ReportController {
  import opened Wrappers
  import opened JsValues
  import opened ReportService

  /** The four fields read from the JSON body; a missing field is `Undefined`. */
  datatype Request = Request(reportType: JsValue, to: JsValue, subject: JsValue, body: JsValue)

  /** The externally visible steps of one accepted request, in the order they happen. */
  datatype Step =
    | UsersFetched
    | PostsFetched(userIds: JsValue)
    | ReportGenerated(reportData: seq<ReportRow>, outcome: RenderOutcome)

  datatype Response = Response(status: int, message: string, steps: seq<Step>)

  const BadRequestMessage: string := "Dados incompletos ou incorretos"
  const SuccessMessage: string := "Email enviado com sucesso (simulado)"
  const NameNotFound: string := "Nome não encontrado"

  /** The guard at the top of the controller, stated as the condition for going on. */
  function RequestAccepted(req: Request): (ok: bool)
    ensures ok <==>
      && req.to.Str? && HasNonWhitespace(req.to.s)
      && req.subject.Str? && HasNonWhitespace(req.subject.s)
      && req.body.Str? && HasNonWhitespace(req.body.s)
      && (req.reportType == Str("PDF") || req.reportType == Str("Excel"))
  {
    !(|| !IsValidString(req.to) || !IsValidString(req.subject) || !IsValidString(req.body)
      || (req.reportType != Str("PDF") && req.reportType != Str("Excel")))
  }

  /** `users.map(user => user.id)`, the array handed to getPosts. */
  function UserIdArray(users: seq<User>): (ids: JsValue)
    ensures ids.Arr? && |ids.items| == |users|
    ensures forall i :: 0 <= i < |users| ==> ids.items[i] == Num(users[i].id)
  {
    Arr(seq(|users|, i requires 0 <= i < |users| => Num(users[i].id)))
  }

  /** `users.find(u => u.id === userId)`: the first user with that id, if any. */
  function FindUser(users: seq<User>, userId: int): (found: Option<User>)
    ensures found.None? <==> forall j :: 0 <= j < |users| ==> users[j].id != userId
    ensures found.Some? ==> exists j :: 0 <= j < |users| && users[j] == found.value && IsFirstMatch(users, userId, j)
  {
    if users == [] then None
    else if users[0].id == userId then
      assert IsFirstMatch(users, userId, 0);
      Some(users[0])
    else
      var rest := FindUser(users[1..], userId);
      FirstMatchShift(users, userId);
      rest
  }

  ghost predicate IsFirstMatch(users: seq<User>, userId: int, j: int) {
    && 0 <= j < |users|
    && users[j].id == userId
    && forall k :: 0 <= k < j ==> users[k].id != userId
  }

  lemma FirstMatchShift(users: seq<User>, userId: int)
    requires users != [] && users[0].id != userId
    ensures forall j :: IsFirstMatch(users[1..], userId, j) ==> IsFirstMatch(users, userId, j + 1)
  {
    forall j | IsFirstMatch(users[1..], userId, j) ensures IsFirstMatch(users, userId, j + 1) {
      forall k | 0 <= k < j + 1 ensures users[k].id != userId {
        if k > 0 { assert users[k] == users[1..][k - 1]; }
      }
    }
  }

  /** Two first matches are the same index. */
  lemma FirstMatchUnique(users: seq<User>, userId: int, i: int, j: int)
    requires IsFirstMatch(users, userId, i) && IsFirstMatch(users, userId, j)
    ensures i == j
  {
  }

  /** The report row for one stat: its fields copied, the name looked up. */
  function RowFor(stat: UserStat, users: seq<User>): ReportRow {
    var user := FindUser(users, stat.userId);
    ReportRow(stat.userId, if user.Some? then user.value.name else NameNotFound, stat.postCount, stat.meanPostSize)
  }

  /** `reportInfo.map(...)`: one row per stat, in the stats' order. */
  function BuildReportRows(stats: seq<UserStat>, users: seq<User>): (rows: seq<ReportRow>)
    ensures |rows| == |stats|
    ensures forall i :: 0 <= i < |stats| ==>
      && rows[i].userId == stats[i].userId
      && rows[i].postCount == stats[i].postCount
      && rows[i].meanPostSize == stats[i].meanPostSize
    ensures forall i, j :: 0 <= i < |stats| && IsFirstMatch(users, stats[i].userId, j) ==>
      rows[i].name == users[j].name
    ensures forall i :: 0 <= i < |stats| && (forall j :: 0 <= j < |users| ==> users[j].id != stats[i].userId) ==>
      rows[i].name == NameNotFound
  {
    var rows := seq(|stats|, i requires 0 <= i < |stats| => RowFor(stats[i], users));
    forall i, j | 0 <= i < |stats| && IsFirstMatch(users, stats[i].userId, j) ensures rows[i].name == users[j].name {
      var found := FindUser(users, stats[i].userId);
      var j' :| 0 <= j' < |users| && users[j'] == found.value && IsFirstMatch(users, stats[i].userId, j');
      FirstMatchUnique(users, stats[i].userId, j, j');
    }
    rows
  }

  /** The rows the controller hands to the report, given what the two fetches returned. */
  ghost function ReportData(fetchedUsers: Option<seq<RawUser>>, fetchedPosts: Option<seq<Post>>): seq<ReportRow> {
    var users := GetAllUsers(fetchedUsers);
    BuildReportRows(Aggregate(GetPosts(UserIdArray(users), fetchedPosts)), users)
  }

  /**
   * reportController: a request failing the guard gets 400 and nothing else
   * happens; otherwise users and posts are fetched, stats and rows built,
   * the report generated, and the answer is 200. Every callee swallows its
   * own errors, so the 500 branch is never taken.
   */
  method HandleReportRequest(req: Request, fetchedUsers: Option<seq<RawUser>>, fetchedPosts: Option<seq<Post>>,
                             fmt: Formatter, excelWriteOk: bool) returns (res: Response)
    ensures !RequestAccepted(req) ==> res == Response(400, BadRequestMessage, [])
    ensures RequestAccepted(req) ==> res.status == 200 && res.message == SuccessMessage
    ensures RequestAccepted(req) ==>
      (res.steps ==
        [ UsersFetched,
          PostsFetched(UserIdArray(GetAllUsers(fetchedUsers))),
          ReportGenerated(ReportData(fetchedUsers, fetchedPosts),
                          GenerateUsersPostsReport(ReportData(fetchedUsers, fetchedPosts), req.reportType.s, fmt, excelWriteOk)) ])
  {
    if !RequestAccepted(req) {
      return Response(400, BadRequestMessage, []);
    }
    var users := GetAllUsers(fetchedUsers);
    var userIDs := UserIdArray(users);
    var posts := GetPosts(userIDs, fetchedPosts);
    var reportInfo := MeanPostSizeByUser(PostArray(posts));
    var reportData := BuildReportRows(reportInfo, users);
    var outcome := GenerateUsersPostsReport(reportData, req.reportType.s, fmt, excelWriteOk);
    res := Response(200, SuccessMessage, [UsersFetched, PostsFetched(userIDs), ReportGenerated(reportData, outcome)]);
  }

  // ---------------------------------------------------------------------------
  // Properties of the pipeline
  // ---------------------------------------------------------------------------

  function SumRowCounts(rows: seq<ReportRow>): int {
    if rows == [] then 0 else SumRowCounts(rows[..|rows| - 1]) + rows[|rows| - 1].postCount
  }

  lemma {:induction false} RowsKeepCounts(stats: seq<UserStat>, users: seq<User>)
    ensures SumRowCounts(BuildReportRows(stats, users)) == SumPostCounts(stats)
  {
    if stats != [] {
      var init := stats[..|stats| - 1];
      var rows := BuildReportRows(stats, users);
      assert rows[..|rows| - 1] == BuildReportRows(init, users);
      RowsKeepCounts(init, users);
    }
  }

  /** Every post the aggregation receives is counted in exactly one report row. */
  lemma ReportCountsEveryFetchedPost(fetchedUsers: Option<seq<RawUser>>, fetchedPosts: Option<seq<Post>>)
    ensures SumRowCounts(ReportData(fetchedUsers, fetchedPosts))
         == |GetPosts(UserIdArray(GetAllUsers(fetchedUsers)), fetchedPosts)|
  {
    var users := GetAllUsers(fetchedUsers);
    var posts := GetPosts(UserIdArray(users), fetchedPosts);
    RowsKeepCounts(Aggregate(posts), users);
    AggregateCountsEveryPost(posts);
  }

  /**
   * Posts are fetched only for the fetched users' ids, so within the
   * pipeline every row's user is found: the placeholder never replaces a
   * name, and each name is that of the first user with the row's id.
   */
  lemma ReportNamesResolve(fetchedUsers: Option<seq<RawUser>>, fetchedPosts: Option<seq<Post>>, i: nat)
    requires i < |ReportData(fetchedUsers, fetchedPosts)|
    ensures exists j :: IsFirstMatch(GetAllUsers(fetchedUsers), ReportData(fetchedUsers, fetchedPosts)[i].userId, j)
                     && ReportData(fetchedUsers, fetchedPosts)[i].name == GetAllUsers(fetchedUsers)[j].name
  {
    var users := GetAllUsers(fetchedUsers);
    var ids := UserIdArray(users);
    var posts := GetPosts(ids, fetchedPosts);
    var stats := Aggregate(posts);
    var id := stats[i].userId;
    UserIdsOfWitness(posts, id);
    var p :| 0 <= p < |posts| && posts[p].userId == id;
    assert posts[p] in posts;
    assert Requested(posts[p], ids.items);
    var u :| 0 <= u < |ids.items| && ids.items[u] == Num(id);
    assert users[u].id == id;
    var found := FindUser(users, id);
    var j :| 0 <= j < |users| && users[j] == found.value && IsFirstMatch(users, id, j);
  }

  /** When the users cannot be fetched, the report is empty. */
  lemma NoUsersGivesEmptyReport(fetchedPosts: Option<seq<Post>>)
    ensures ReportData(None, fetchedPosts) == []
  {
  }

  /** When the posts cannot be fetched, the report is empty. */
  lemma NoPostsGivesEmptyReport(fetchedUsers: Option<seq<RawUser>>)
    ensures ReportData(fetchedUsers, None) == []
  {
  }

  /** A stat whose user is unknown gets the placeholder name. */
  lemma UnknownUserGetsPlaceholder()
    ensures BuildReportRows([UserStat(2, 1, 1.0)], [User(1, "Ana")]) == [ReportRow(2, NameNotFound, 1, 1.0)]
  {
  }

  // ---------------------------------------------------------------------------
  // The request cases exercised by the repository's HTTP tests
  // ---------------------------------------------------------------------------

  /** An empty body and a body without `body`. */
  lemma RejectedMissingFields()
    ensures !RequestAccepted(Request(Undefined, Undefined, Undefined, Undefined))
    ensures !RequestAccepted(Request(Str("PDF"), Str("email@teste.com"), Str("x"), Undefined))
  {
  }

  /** An empty `to` and an empty `subject`. */
  lemma RejectedEmptyFields()
    ensures !RequestAccepted(Request(Str("PDF"), Str(""), Str("x"), Str("x")))
    ensures !RequestAccepted(Request(Str("PDF"), Str("email@teste.com"), Str(""), Str("x")))
  {
  }

  /** A report type other than the two accepted ones. */
  lemma RejectedUnknownType()
    ensures !RequestAccepted(Request(Str("Invalid"), Str("email@teste.com"), Str("x"), Str("x")))
  {
  }

  /** A `to` made of spaces only: `trim` leaves nothing. */
  lemma RejectedBlankRecipient()
    ensures !RequestAccepted(Request(Str("PDF"), Str("   "), Str("x"), Str("x")))
  {
    var blank := "   ";
    assert forall i :: 0 <= i < |blank| ==> blank[i] == ' ';
    assert !HasNonWhitespace(blank);
  }

  /** `null` fields and values of the wrong type. */
  lemma RejectedNullsAndWrongTypes()
    ensures !RequestAccepted(Request(Str("PDF"), Null, Str("x"), Str("x")))
    ensures !RequestAccepted(Request(Str("Excel"), Str("email@teste.com"), Null, Str("x")))
    ensures !RequestAccepted(Request(Null, Str("email@teste.com"), Str("x"), Str("x")))
    ensures !RequestAccepted(Request(Str("PDF"), Str("email@teste.com"), Str("x"), Null))
    ensures !RequestAccepted(Request(Str("PDF"), Num(123), Num(456), Num(789)))
    ensures !RequestAccepted(Request(Str("PDF"), Str("email@teste.com"), Str("x"), Obj([("text", Str("objeto"))])))
  {
  }

  /** The report type is case-sensitive. */
  lemma RejectedLowercaseType()
    ensures !RequestAccepted(Request(Str("pdf"), Str("email@teste.com"), Str("x"), Str("x")))
  {
  }

  lemma AcceptedPdfRequest()
    ensures RequestAccepted(Request(Str("PDF"), Str("email@teste.com"), Str("Teste PDF"), Str("conteúdo")))
  {
    assert !IsJsWhitespace("email@teste.com"[0]);
    assert !IsJsWhitespace("Teste PDF"[0]);
    assert !IsJsWhitespace("conteúdo"[0]);
  }

  lemma AcceptedExcelRequest()
    ensures RequestAccepted(Request(Str("Excel"), Str("email@teste.com"), Str("Teste Excel"), Str("conteúdo")))
  {
    assert !IsJsWhitespace("email@teste.com"[0]);
    assert !IsJsWhitespace("Teste Excel"[0]);
    assert !IsJsWhitespace("conteúdo"[0]);
  }
}
