/**
 * Model of src/services/reportService.js: the user projection of getAllUsers,
 * the argument guard and filter of getPosts, the per-user aggregation
 * meanPostSizeByUser, the two render variants reduced to the data they lay
 * out, the dispatch generateUsersPostsReport and isValidString.
 *
 * The HTTP responses are parameters (`None` for a failed fetch), file writes
 * are an `excelWriteOk` flag, and number formatting is a `Formatter` parameter.
 */
module ReportService {
  import opened Wrappers
  import opened JsValues
  import opened IntegerKeys

  // ---------------------------------------------------------------------------
  // Records
  // ---------------------------------------------------------------------------

  /** A user record as the users resource returns it: `id`, `name` and further fields. */
  datatype RawUser = RawUser(id: int, name: string, otherFields: seq<(string, JsValue)>)

  datatype User = User(id: int, name: string)

  datatype Post = Post(userId: int, body: string)

  datatype UserStat = UserStat(userId: int, postCount: nat, meanPostSize: real)

  datatype ReportRow = ReportRow(userId: int, name: string, postCount: nat, meanPostSize: real)

  /** The `posts` argument of meanPostSizeByUser: an array of posts, or some non-array value. */
  datatype PostsArg = PostArray(elems: seq<Post>) | NotAnArray

  // ---------------------------------------------------------------------------
  // getAllUsers
  // ---------------------------------------------------------------------------

  /** Projects every fetched user to `{id, name}`; a failed fetch yields no users. */
  function GetAllUsers(fetched: Option<seq<RawUser>>): (users: seq<User>)
    ensures fetched.None? ==> users == []
    ensures fetched.Some? ==> |users| == |fetched.value|
    ensures fetched.Some? ==>
      forall i :: 0 <= i < |users| ==> users[i].id == fetched.value[i].id && users[i].name == fetched.value[i].name
  {
    match fetched
    case None => []
    case Some(raw) => seq(|raw|, i requires 0 <= i < |raw| => User(raw[i].id, raw[i].name))
  }

  // ---------------------------------------------------------------------------
  // getPosts
  // ---------------------------------------------------------------------------

  /**
   * The guard as written: `!Array.isArray(userIDs || typeof userIDs !== "number")`.
   * The `||` yields `userIDs` when it is truthy and a boolean otherwise.
   */
  predicate PostsGuardRejects(userIDs: JsValue) {
    !IsArray(Or(userIDs, Bool(!IsNumber(userIDs))))
  }

  /** The guard the surrounding comment describes: reject what is neither an array nor a number. */
  predicate IntendedGuardRejects(userIDs: JsValue) {
    !IsArray(userIDs) && !IsNumber(userIDs)
  }

  /** `userIDs.includes(post.userId)`: SameValueZero membership of the post's owner id. */
  predicate Requested(post: Post, ids: seq<JsValue>) {
    Num(post.userId) in ids
  }

  /** `a` can be obtained from `b` by deleting elements. */
  ghost predicate IsSubsequence<T>(a: seq<T>, b: seq<T>)
    decreases |b|
  {
    if a == [] then true
    else if b == [] then false
    else if a[0] == b[0] then IsSubsequence(a[1..], b[1..])
    else IsSubsequence(a, b[1..])
  }

  /** `posts.filter(post => ids.includes(post.userId))` */
  function FilterPosts(posts: seq<Post>, ids: seq<JsValue>): (r: seq<Post>)
    ensures IsSubsequence(r, posts)
    ensures forall p :: p in r ==> Requested(p, ids)
    ensures forall p :: multiset(r)[p] == if Requested(p, ids) then multiset(posts)[p] else 0
  {
    if posts == [] then []
    else
      assert posts == [posts[0]] + posts[1..];
      if Requested(posts[0], ids) then [posts[0]] + FilterPosts(posts[1..], ids)
      else FilterPosts(posts[1..], ids)
  }

  /** The body of getPosts after its guard: scalar normalisation, fetch, filter. */
  function NormaliseFetchFilter(userIDs: JsValue, fetched: Option<seq<Post>>): seq<Post>
    requires IsArray(userIDs) || IsNumber(userIDs)
  {
    var ids := if IsNumber(userIDs) then [userIDs] else userIDs.items;
    match fetched
    case None => []
    case Some(posts) => FilterPosts(posts, ids)
  }

  /** getPosts as written; the thrown guard error and a failed fetch both become `[]`. */
  function GetPosts(userIDs: JsValue, fetched: Option<seq<Post>>): (r: seq<Post>)
    ensures !IsArray(userIDs) ==> r == []
    ensures IsArray(userIDs) && fetched.None? ==> r == []
    ensures IsArray(userIDs) && fetched.Some? ==> r == FilterPosts(fetched.value, userIDs.items)
  {
    if PostsGuardRejects(userIDs) then [] else NormaliseFetchFilter(userIDs, fetched)
  }

  /** getPosts with the guard its comment describes: a single number is accepted. */
  function GetPostsIntended(userIDs: JsValue, fetched: Option<seq<Post>>): (r: seq<Post>)
    ensures !IsArray(userIDs) && !IsNumber(userIDs) ==> r == []
    ensures fetched.None? ==> r == []
    ensures IsArray(userIDs) && fetched.Some? ==> r == FilterPosts(fetched.value, userIDs.items)
    ensures IsNumber(userIDs) && fetched.Some? ==> r == FilterPosts(fetched.value, [userIDs])
  {
    if IntendedGuardRejects(userIDs) then [] else NormaliseFetchFilter(userIDs, fetched)
  }

  /** The guard as written throws for exactly the non-arrays, a plain number included. */
  lemma PostsGuardRejectsExactlyNonArrays(userIDs: JsValue)
    ensures PostsGuardRejects(userIDs) <==> !IsArray(userIDs)
    ensures IsNumber(userIDs) ==> PostsGuardRejects(userIDs)
  {
  }

  /** A single id is dropped as written, and kept by the intended guard. */
  lemma GetPostsDropsSingleId()
    ensures GetPosts(Num(1), Some([Post(1, "x")])) == []
    ensures GetPostsIntended(Num(1), Some([Post(1, "x")])) == [Post(1, "x")]
  {
    assert Requested(Post(1, "x"), [Num(1)]);
  }

  /** Both guards let every array through, so they agree on the controller's call. */
  lemma GetPostsAgreesOnArrays(userIDs: JsValue, fetched: Option<seq<Post>>)
    requires IsArray(userIDs)
    ensures GetPosts(userIDs, fetched) == GetPostsIntended(userIDs, fetched)
  {
  }

  // ---------------------------------------------------------------------------
  // meanPostSizeByUser: specification
  // ---------------------------------------------------------------------------

  /** Number of posts owned by `id`. */
  function PostCount(posts: seq<Post>, id: int): nat {
    if posts == [] then 0
    else PostCount(posts[..|posts| - 1], id) + (if posts[|posts| - 1].userId == id then 1 else 0)
  }

  /** Sum of the body lengths (`body.length`, in UTF-16 code units) of the posts owned by `id`. */
  function TotalSize(posts: seq<Post>, id: int): nat {
    if posts == [] then 0
    else TotalSize(posts[..|posts| - 1], id) + (if posts[|posts| - 1].userId == id then Utf16Length(posts[|posts| - 1].body) else 0)
  }

  /** The distinct owner ids occurring in `posts`. */
  function UserIdsOf(posts: seq<Post>): set<int> {
    if posts == [] then {}
    else UserIdsOf(posts[..|posts| - 1]) + {posts[|posts| - 1].userId}
  }

  /** Number of posts whose owner is in `ids`. */
  function CountIn(posts: seq<Post>, ids: set<int>): nat {
    if posts == [] then 0
    else CountIn(posts[..|posts| - 1], ids) + (if posts[|posts| - 1].userId in ids then 1 else 0)
  }

  function SumPostCounts(stats: seq<UserStat>): int {
    if stats == [] then 0 else SumPostCounts(stats[..|stats| - 1]) + stats[|stats| - 1].postCount
  }

  function StatIds(stats: seq<UserStat>): set<int> {
    if stats == [] then {} else StatIds(stats[..|stats| - 1]) + {stats[|stats| - 1].userId}
  }

  lemma {:induction false} StatIdsMembers(stats: seq<UserStat>, id: int)
    ensures id in StatIds(stats) <==> exists i :: 0 <= i < |stats| && stats[i].userId == id
  {
    if stats != [] {
      var init := stats[..|stats| - 1];
      StatIdsMembers(init, id);
      if id in StatIds(init) {
        var i :| 0 <= i < |init| && init[i].userId == id;
        assert stats[i] == init[i];
      }
      if exists i :: 0 <= i < |stats| && stats[i].userId == id {
        var i :| 0 <= i < |stats| && stats[i].userId == id;
        if i < |init| { assert init[i] == stats[i]; }
      }
    }
  }

  lemma {:induction false} PostCountPositiveIffPresent(posts: seq<Post>, id: int)
    ensures PostCount(posts, id) >= 1 <==> id in UserIdsOf(posts)
    ensures id !in UserIdsOf(posts) ==> TotalSize(posts, id) == 0
  {
    if posts != [] {
      PostCountPositiveIffPresent(posts[..|posts| - 1], id);
    }
  }

  /** Every owner id comes from some post. */
  lemma {:induction false} UserIdsOfWitness(posts: seq<Post>, id: int)
    requires id in UserIdsOf(posts)
    ensures exists i :: 0 <= i < |posts| && posts[i].userId == id
  {
    var init := posts[..|posts| - 1];
    if posts[|posts| - 1].userId != id {
      UserIdsOfWitness(init, id);
      var i :| 0 <= i < |init| && init[i].userId == id;
      assert posts[i] == init[i];
    }
  }

  lemma {:induction false} UserIdsOfEmpty(posts: seq<Post>)
    ensures UserIdsOf(posts) == {} <==> posts == []
  {
    if posts != [] {
      assert posts[|posts| - 1].userId in UserIdsOf(posts);
    }
  }

  /**
   * The distinct owner ids of `posts` in ascending order: the order `for..in`
   * visits array-index keys, here taken for every id.
   */
  function AscendingUserIds(posts: seq<Post>): (ks: seq<int>)
    ensures Ascending(ks)
    ensures forall k :: k in ks <==> k in UserIdsOf(posts)
    ensures |ks| == |UserIdsOf(posts)|
  {
    if posts == [] then []
    else
      var id := posts[|posts| - 1].userId;
      var prev := AscendingUserIds(posts[..|posts| - 1]);
      assert id in UserIdsOf(posts[..|posts| - 1]) ==> UserIdsOf(posts) == UserIdsOf(posts[..|posts| - 1]);
      InsertKey(prev, id)
  }

  /** The entry meanPostSizeByUser emits for one owner id. */
  ghost function StatOf(posts: seq<Post>, id: int): (stat: UserStat)
    requires id in UserIdsOf(posts)
    ensures stat.userId == id
    ensures stat.postCount == PostCount(posts, id) >= 1
    ensures stat.meanPostSize == TotalSize(posts, id) as real / stat.postCount as real
  {
    PostCountPositiveIffPresent(posts, id);
    UserStat(id, PostCount(posts, id), TotalSize(posts, id) as real / PostCount(posts, id) as real)
  }

  ghost function StatsFor(posts: seq<Post>, ks: seq<int>): (stats: seq<UserStat>)
    requires forall k :: k in ks ==> k in UserIdsOf(posts)
    ensures |stats| == |ks|
    ensures forall i :: 0 <= i < |ks| ==> stats[i] == StatOf(posts, ks[i])
  {
    seq(|ks|, i requires 0 <= i < |ks| => StatOf(posts, ks[i]))
  }

  lemma StatsForExtend(posts: seq<Post>, ks: seq<int>, n: nat)
    requires n < |ks|
    requires forall k :: k in ks ==> k in UserIdsOf(posts)
    ensures StatsFor(posts, ks[..n + 1]) == StatsFor(posts, ks[..n]) + [StatOf(posts, ks[n])]
  {
    assert forall k :: k in ks[..n] ==> k in ks;
    assert forall k :: k in ks[..n + 1] ==> k in ks;
  }

  /**
   * The result of meanPostSizeByUser on an array of posts: one entry per
   * distinct owner id, in ascending id order.
   */
  ghost function Aggregate(posts: seq<Post>): (stats: seq<UserStat>)
    ensures forall i, j :: 0 <= i < j < |stats| ==> stats[i].userId < stats[j].userId
    ensures forall i :: 0 <= i < |stats| ==> stats[i].userId in UserIdsOf(posts)
    ensures forall id :: id in UserIdsOf(posts) ==> exists i :: 0 <= i < |stats| && stats[i].userId == id
    ensures forall i :: 0 <= i < |stats| ==>
      && stats[i].postCount == PostCount(posts, stats[i].userId) >= 1
      && stats[i].meanPostSize == TotalSize(posts, stats[i].userId) as real / stats[i].postCount as real
    ensures stats == [] <==> posts == []
  {
    var ks := AscendingUserIds(posts);
    UserIdsOfEmpty(posts);
    var stats := StatsFor(posts, ks);
    forall i | 0 <= i < |stats|
      ensures stats[i].userId == ks[i] && stats[i].userId in UserIdsOf(posts)
      ensures stats[i].postCount == PostCount(posts, stats[i].userId) >= 1
      ensures stats[i].meanPostSize == TotalSize(posts, stats[i].userId) as real / stats[i].postCount as real
    {
      assert stats[i] == StatOf(posts, ks[i]);
    }
    assert forall id :: id in UserIdsOf(posts) ==> exists i :: 0 <= i < |stats| && stats[i].userId == id by {
      forall id | id in UserIdsOf(posts) ensures exists i :: 0 <= i < |stats| && stats[i].userId == id {
        var i :| 0 <= i < |ks| && ks[i] == id;
        assert stats[i].userId == id;
      }
    }
    assert stats == [] ==> posts == [] by {
      if posts != [] {
        assert posts[|posts| - 1].userId in ks;
      }
    }
    stats
  }

  lemma {:induction false} CountInAddKey(posts: seq<Post>, ids: set<int>, id: int)
    requires id !in ids
    ensures CountIn(posts, ids + {id}) == CountIn(posts, ids) + PostCount(posts, id)
  {
    if posts != [] {
      CountInAddKey(posts[..|posts| - 1], ids, id);
    }
  }

  lemma {:induction false} CountInNone(posts: seq<Post>)
    ensures CountIn(posts, {}) == 0
  {
    if posts != [] {
      CountInNone(posts[..|posts| - 1]);
    }
  }

  lemma {:induction false} CountInCovering(posts: seq<Post>, ids: set<int>)
    requires UserIdsOf(posts) <= ids
    ensures CountIn(posts, ids) == |posts|
  {
    if posts != [] {
      CountInCovering(posts[..|posts| - 1], ids);
    }
  }

  /** Summing correct counts over distinct ids counts the posts owned by those ids. */
  lemma {:induction false} SumOfDistinctCounts(posts: seq<Post>, stats: seq<UserStat>)
    requires forall i, j :: 0 <= i < j < |stats| ==> stats[i].userId != stats[j].userId
    requires forall i :: 0 <= i < |stats| ==> stats[i].postCount == PostCount(posts, stats[i].userId)
    ensures SumPostCounts(stats) == CountIn(posts, StatIds(stats))
  {
    if stats != [] {
      var init := stats[..|stats| - 1];
      var last := stats[|stats| - 1];
      assert forall i :: 0 <= i < |init| ==> init[i] == stats[i];
      SumOfDistinctCounts(posts, init);
      assert SumPostCounts(stats) == SumPostCounts(init) + last.postCount;
      assert last.postCount == PostCount(posts, last.userId);
      StatIdsMembers(init, last.userId);
      CountInAddKey(posts, StatIds(init), last.userId);
    } else {
      CountInNone(posts);
    }
  }

  /** The aggregate's counts add up to the number of posts: none dropped, none counted twice. */
  lemma AggregateCountsEveryPost(posts: seq<Post>)
    ensures SumPostCounts(Aggregate(posts)) == |posts|
  {
    var stats := Aggregate(posts);
    SumOfDistinctCounts(posts, stats);
    assert StatIds(stats) == UserIdsOf(posts) by {
      forall k ensures k in StatIds(stats) <==> k in UserIdsOf(posts) {
        StatIdsMembers(stats, k);
      }
    }
    CountInCovering(posts, UserIdsOf(posts));
  }

  /** The worked example: two posts of user 1 (2 and 4 characters) and one of user 2. */
  lemma AggregateExample()
    ensures Aggregate([Post(1, "ab"), Post(1, "abcd"), Post(2, "x")]) == [UserStat(1, 2, 3.0), UserStat(2, 1, 1.0)]
  {
    var posts := [Post(1, "ab"), Post(1, "abcd"), Post(2, "x")];
    ExampleStats();
    var stats := Aggregate(posts);
    assert stats == StatsFor(posts, [1, 2]);
    assert stats[0] == UserStat(1, 2, 3.0) && stats[1] == UserStat(2, 1, 1.0);
  }

  lemma ExampleStats()
    ensures AscendingUserIds([Post(1, "ab"), Post(1, "abcd"), Post(2, "x")]) == [1, 2]
    ensures StatOf([Post(1, "ab"), Post(1, "abcd"), Post(2, "x")], 1) == UserStat(1, 2, 3.0)
    ensures StatOf([Post(1, "ab"), Post(1, "abcd"), Post(2, "x")], 2) == UserStat(2, 1, 1.0)
  {
    ExampleIds();
    ExampleCounts();
    var posts := [Post(1, "ab"), Post(1, "abcd"), Post(2, "x")];
    StatFromCounts(posts, 1, 2, 6, 3.0);
    StatFromCounts(posts, 2, 1, 1, 1.0);
  }

  /** A user's stat, given its count and total and a mean that times the count gives the total. */
  lemma StatFromCounts(posts: seq<Post>, id: int, count: nat, total: nat, mean: real)
    requires PostCount(posts, id) == count >= 1 && TotalSize(posts, id) == total
    requires mean * count as real == total as real
    ensures id in UserIdsOf(posts)
    ensures StatOf(posts, id) == UserStat(id, count, mean)
  {
    PostCountPositiveIffPresent(posts, id);
  }

  lemma ExampleIds()
    ensures AscendingUserIds([Post(1, "ab"), Post(1, "abcd"), Post(2, "x")]) == [1, 2]
  {
    var posts := [Post(1, "ab"), Post(1, "abcd"), Post(2, "x")];
    var first2 := [Post(1, "ab"), Post(1, "abcd")];
    var first1 := [Post(1, "ab")];
    assert posts[..2] == first2 && first2[..1] == first1 && first1[..0] == [];
    assert AscendingUserIds(first1) == [1];
    assert AscendingUserIds(first2) == [1];
    assert InsertKey([1], 2) == [1, 2];
  }

  lemma ExampleCounts()
    ensures PostCount([Post(1, "ab"), Post(1, "abcd"), Post(2, "x")], 1) == 2
    ensures TotalSize([Post(1, "ab"), Post(1, "abcd"), Post(2, "x")], 1) == 6
    ensures PostCount([Post(1, "ab"), Post(1, "abcd"), Post(2, "x")], 2) == 1
    ensures TotalSize([Post(1, "ab"), Post(1, "abcd"), Post(2, "x")], 2) == 1
  {
    var posts := [Post(1, "ab"), Post(1, "abcd"), Post(2, "x")];
    var first2 := [Post(1, "ab"), Post(1, "abcd")];
    var first1 := [Post(1, "ab")];
    assert posts[..2] == first2 && first2[..1] == first1 && first1[..0] == [];
    ExampleLengths();
  }

  /** Plain letters each count one code unit. */
  lemma ExampleLengths()
    ensures Utf16Length("ab") == 2 && Utf16Length("abcd") == 4 && Utf16Length("x") == 1
  {
  }

  // ---------------------------------------------------------------------------
  // meanPostSizeByUser: the two loops
  // ---------------------------------------------------------------------------

  /** Running totals kept per owner id in `postsInfo`. */
  datatype Tally = Tally(totalPostsSize: nat, postCount: nat)

  /** What `postsInfo` holds once every post has been visited: one tally per owner id. */
  ghost predicate TalliesOf(postsInfo: map<int, Tally>, posts: seq<Post>) {
    && postsInfo.Keys == UserIdsOf(posts)
    && forall k :: k in postsInfo ==> postsInfo[k] == Tally(TotalSize(posts, k), PostCount(posts, k))
  }

  /**
   * meanPostSizeByUser: a non-array argument throws inside the `try` and
   * yields `[]`; otherwise the two loops below run one after the other.
   */
  method MeanPostSizeByUser(posts: PostsArg) returns (stats: seq<UserStat>)
    ensures posts.NotAnArray? ==> stats == []
    ensures posts.PostArray? ==> stats == Aggregate(posts.elems)
  {
    if posts.NotAnArray? {
      return [];
    }
    var postsInfo := TallyPosts(posts.elems);
    stats := EmitStats(postsInfo, posts.elems);
  }

  /** The `posts.forEach` loop: starts a tally at the first post of an owner, then adds to it. */
  method TallyPosts(ps: seq<Post>) returns (postsInfo: map<int, Tally>)
    ensures TalliesOf(postsInfo, ps)
  {
    postsInfo := map[];
    var i := 0;
    while i < |ps|
      invariant 0 <= i <= |ps|
      invariant TalliesOf(postsInfo, ps[..i])
    {
      assert ps[..i + 1][..i] == ps[..i];
      var size := Utf16Length(ps[i].body);
      var userID := ps[i].userId;
      if userID !in postsInfo {
        PostCountPositiveIffPresent(ps[..i], userID);
        postsInfo := postsInfo[userID := Tally(size, 1)];
      } else {
        var t := postsInfo[userID];
        postsInfo := postsInfo[userID := Tally(t.totalPostsSize + size, t.postCount + 1)];
      }
      i := i + 1;
    }
    assert ps[..i] == ps;
  }

  /** The `for..in` loop: visits the tallied ids in ascending order and emits count and mean. */
  method EmitStats(postsInfo: map<int, Tally>, ghost ps: seq<Post>) returns (stats: seq<UserStat>)
    requires TalliesOf(postsInfo, ps)
    ensures stats == Aggregate(ps)
  {
    stats := [];
    var remaining := postsInfo.Keys;
    ghost var order := AscendingUserIds(ps);
    while remaining != {}
      invariant |stats| <= |order|
      invariant |remaining| == |order| - |stats|
      invariant forall k :: k in remaining <==> k in order[|stats|..]
      invariant stats == StatsFor(ps, order[..|stats|])
      decreases |order| - |stats|
    {
      ghost var n := |stats|;
      NextKeyStep(order, remaining, n);
      var userId :| userId in remaining && forall y :: y in remaining ==> userId <= y;
      assert userId == order[n];
      var t := postsInfo[userId];
      TallyGivesStat(postsInfo, ps, userId);
      var entry := UserStat(userId, t.postCount, t.totalPostsSize as real / t.postCount as real);
      StatsForExtend(ps, order, n);
      stats := stats + [entry];
      remaining := remaining - {userId};
    }
    assert order[..|stats|] == order;
  }

  /** The least key not yet visited is `order[n]`; removing it leaves the keys from `n + 1` on. */
  lemma NextKeyStep(order: seq<int>, remaining: set<int>, n: nat)
    requires Ascending(order) && n < |order|
    requires forall k :: k in remaining <==> k in order[n..]
    requires |remaining| == |order| - n
    ensures order[n] in remaining
    ensures forall y :: y in remaining ==> order[n] <= y
    ensures forall k :: k in remaining - {order[n]} <==> k in order[n + 1..]
    ensures |remaining - {order[n]}| == |order| - (n + 1)
  {
    AscendingSuffix(order, n);
    assert order[n] in order[n..];
  }

  /** A tally entry yields the stat the specification asks for. */
  lemma TallyGivesStat(postsInfo: map<int, Tally>, ps: seq<Post>, id: int)
    requires TalliesOf(postsInfo, ps) && id in postsInfo
    ensures postsInfo[id].postCount >= 1
    ensures UserStat(id, postsInfo[id].postCount, postsInfo[id].totalPostsSize as real / postsInfo[id].postCount as real)
         == StatOf(ps, id)
  {
    PostCountPositiveIffPresent(ps, id);
  }

  // ---------------------------------------------------------------------------
  // Rendering
  // ---------------------------------------------------------------------------

  /** Number formatting, left uninterpreted: `Number.prototype.toString` and `toFixed(2)`. */
  datatype Formatter = Formatter(intText: int -> string, fixed2: real -> string)

  /** The four column titles, shared by both variants. */
  const ColumnLabels: seq<string> := ["ID do Usuário", "Nome do Usuário", "Qtd. de Posts", "Média de Caracteres"]

  const ExcelPath: string := "./report.xlsx"
  const SheetName: string := "Report"

  /** One spreadsheet row, keyed by the four column labels. */
  datatype SheetRecord = SheetRecord(userId: int, name: string, postCount: nat, meanText: string)

  /**
   * The header row `json_to_sheet` writes: the keys of the records it is
   * given, so the four labels when there is a record and nothing otherwise.
   */
  function SheetHeader(records: seq<SheetRecord>): seq<string>
  {
    if records == [] then [] else ColumnLabels
  }

  /** `reportData.map(item => ({...}))` of the spreadsheet variant. */
  function ExcelRecords(rows: seq<ReportRow>, fmt: Formatter): (records: seq<SheetRecord>)
    ensures |records| == |rows|
    ensures forall i :: 0 <= i < |rows| ==>
      && records[i].userId == rows[i].userId
      && records[i].name == rows[i].name
      && records[i].postCount == rows[i].postCount
      && records[i].meanText == fmt.fixed2(rows[i].meanPostSize)
  {
    seq(|rows|, i requires 0 <= i < |rows| =>
      SheetRecord(rows[i].userId, rows[i].name, rows[i].postCount, fmt.fixed2(rows[i].meanPostSize)))
  }

  const PdfPath: string := "./report.pdf"
  const PdfMargin: int := 60
  const PdfTitle: string := "Relatório de Usuários e Posts"
  const StartY: int := 100
  const RowHeight: int := 32
  const ColX: seq<int> := [60, 170, 370, 490]

  datatype TextCell = TextCell(text: string, x: int, y: int)

  datatype Stroke = Stroke(x1: int, y1: int, x2: int, y2: int)

  /** What the document variant draws: title, header cells, the rule under them, one line per row. */
  datatype PdfPage = PdfPage(title: string, header: seq<TextCell>, headerRule: Stroke, lines: seq<seq<TextCell>>)

  /** The four cells of report row number `index`. */
  function RowCells(row: ReportRow, index: nat, fmt: Formatter): seq<TextCell> {
    var y := StartY + 30 + index * RowHeight;
    [ TextCell(fmt.intText(row.userId), ColX[0], y),
      TextCell(row.name, ColX[1], y),
      TextCell(fmt.intText(row.postCount), ColX[2], y),
      TextCell(fmt.fixed2(row.meanPostSize), ColX[3], y) ]
  }

  /** The layout of the document variant. */
  function PdfLayout(rows: seq<ReportRow>, fmt: Formatter): (page: PdfPage)
    ensures page.title == PdfTitle
    ensures |page.header| == 4
    ensures forall c :: 0 <= c < 4 ==> page.header[c] == TextCell(ColumnLabels[c], ColX[c], 100)
    ensures page.headerRule == Stroke(50, 122, 550, 122)
    ensures |page.lines| == |rows|
    ensures forall i :: 0 <= i < |rows| ==> |page.lines[i]| == 4
    ensures forall i, c :: 0 <= i < |rows| && 0 <= c < 4 ==>
      page.lines[i][c].x == ColX[c] && page.lines[i][c].y == 130 + 32 * i
    ensures forall i :: 0 <= i < |rows| ==>
      && page.lines[i][0].text == fmt.intText(rows[i].userId)
      && page.lines[i][1].text == rows[i].name
      && page.lines[i][2].text == fmt.intText(rows[i].postCount)
      && page.lines[i][3].text == fmt.fixed2(rows[i].meanPostSize)
  {
    var header := seq(4, c requires 0 <= c < 4 => TextCell(ColumnLabels[c], ColX[c], StartY));
    var ruleY := StartY + RowHeight - 10;
    PdfPage(PdfTitle, header, Stroke(50, ruleY, 550, ruleY),
            seq(|rows|, i requires 0 <= i < |rows| => RowCells(rows[i], i, fmt)))
  }

  /** Every report line lies below the header rule. */
  lemma PdfRowBelowRule(rows: seq<ReportRow>, fmt: Formatter, i: nat, c: nat)
    requires i < |rows| && c < 4
    ensures PdfLayout(rows, fmt).headerRule.y1 < PdfLayout(rows, fmt).lines[i][c].y
    ensures PdfLayout(rows, fmt).lines[i][c].y - PdfLayout(rows, fmt).headerRule.y1 == 8 + RowHeight * i
  {
  }

  /** Later rows lie strictly lower, one row height per row. */
  lemma {:induction false} PdfRowsDescend(rows: seq<ReportRow>, fmt: Formatter, i: nat, j: nat, c: nat)
    requires i < j < |rows| && c < 4
    ensures PdfLayout(rows, fmt).lines[i][c].y < PdfLayout(rows, fmt).lines[j][c].y
    ensures PdfLayout(rows, fmt).lines[j][c].y - PdfLayout(rows, fmt).lines[i][c].y == RowHeight * (j - i)
  {
    var page := PdfLayout(rows, fmt);
    assert page.lines[j][c].y - page.lines[i][c].y == 32 * j - 32 * i;
  }

  datatype Artifact =
    | Spreadsheet(path: string, sheetName: string, columns: seq<string>, records: seq<SheetRecord>)
    | PdfDocument(path: string, margin: int, page: PdfPage)

  datatype RenderOutcome = Written(artifact: Artifact) | NothingWritten

  /**
   * generateUsersPostsReport: "Excel" selects the spreadsheet, "PDF" the
   * document, anything else does nothing. The spreadsheet is written
   * synchronously, so a failed write is caught and leaves nothing written.
   * The document is streamed to its file after the call returns, so from
   * the call's point of view it is always produced.
   */
  function GenerateUsersPostsReport(rows: seq<ReportRow>, reportType: string, fmt: Formatter, excelWriteOk: bool): (outcome: RenderOutcome)
    ensures outcome.Written? <==> (reportType == "Excel" && excelWriteOk) || reportType == "PDF"
    ensures outcome.Written? && reportType == "Excel" ==>
      outcome.artifact == Spreadsheet(ExcelPath, SheetName, SheetHeader(ExcelRecords(rows, fmt)), ExcelRecords(rows, fmt))
    ensures outcome.Written? && reportType == "PDF" ==>
      outcome.artifact == PdfDocument(PdfPath, PdfMargin, PdfLayout(rows, fmt))
  {
    if reportType == "Excel" then
      if excelWriteOk then
        var records := ExcelRecords(rows, fmt);
        Written(Spreadsheet(ExcelPath, SheetName, SheetHeader(records), records))
      else NothingWritten
    else if reportType == "PDF" then
      Written(PdfDocument(PdfPath, PdfMargin, PdfLayout(rows, fmt)))
    else
      NothingWritten
  }

  /** A report without rows is a sheet without a header row; with rows, the header is the four labels. */
  lemma SpreadsheetHeaderOnlyWithRows(rows: seq<ReportRow>, fmt: Formatter)
    ensures GenerateUsersPostsReport(rows, "Excel", fmt, true).artifact.columns == (if rows == [] then [] else ColumnLabels)
    ensures GenerateUsersPostsReport([], "Excel", fmt, true) == Written(Spreadsheet(ExcelPath, SheetName, [], []))
  {
  }

  // ---------------------------------------------------------------------------
  // isValidString
  // ---------------------------------------------------------------------------

  /** `typeof value === "string" && value.trim() !== ""` */
  function IsValidString(value: JsValue): (r: bool)
    ensures r <==> value.Str? && HasNonWhitespace(value.s)
  {
    IsString(value) && Trim(value.s) != ""
  }
}
