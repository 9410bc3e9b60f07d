/**
 * The generateUri cases of the router's tests, and the prefix collision of
 * replacePathParameters, derived from the general lemmas: each path is given
 * as segments (BuildReads reads it), generated (GenerateFrom) and normalised
 * (PathNormalizer).
 */
module GenerationExamples {
  import opened Wrappers
  import opened RouterErrors
  import opened PathNormalizer
  import opened PathTemplate
  import opened TemplateSubstitution
  import opened UriGeneration

  // ---- /user/:id/posts/:postId? with id = 123 ----

  function UserPosts(): seq<Segment> {
    [Segment("/user/", Parameter("id", Required)), Segment("/posts/", Parameter("postId", Optional))]
  }

  lemma UserPostsPath()
    ensures Build(UserPosts()) == "/user/:id/posts/:postId?"
  {
  }

  lemma UserPostsOk()
    ensures SegmentsOk(UserPosts())
  {
    var a, b := UserPosts()[0], UserPosts()[1];
    SegmentsOkCons(b, []);
    assert [b] + [] == [b];
    SegmentsOkCons(a, [b]);
    assert [a] + [b] == UserPosts();
  }

  lemma UserPostsParams()
    ensures SegmentsOk(UserPosts())
    ensures SegmentParams(UserPosts()) == [Parameter("id", Required), Parameter("postId", Optional)]
  {
    UserPostsOk();
  }

  lemma UserPostsReady()
    ensures SegmentsOk(UserPosts())
    ensures AllRequiredPresent(SegmentParams(UserPosts()), map["id" := "123"])
    ensures ValuesColonFree(map["id" := "123"])
  {
    UserPostsParams();
  }

  lemma UserPostsFilled()
    ensures Filled(UserPosts(), map["id" := "123"]) == "/user/123/posts/"
  {
  }

  lemma UserPostsNormal()
    ensures NormalizePath("/user/123/posts/") == "/user/123/posts"
  {
    NormalSegment("user");
    NormalExtend("/user", "123");
    NormalExtend("/user/123", "posts");
    NormalTrailing("/user/123/posts");
    assert "/user/123/posts" + "/" == "/user/123/posts/";
  }

  lemma UserPostsGenerated()
    ensures GenerateFromPath("user-posts", Build(UserPosts()), map["id" := "123"]) == Success("/user/123/posts")
  {
    UserPostsReady();
    UserPostsFilled();
    UserPostsNormal();
    GenerateFromSegments("user-posts", UserPosts(), map["id" := "123"], "/user/123/posts/");
  }

  /** An omitted optional parameter disappears together with its slash. */
  lemma GenerateOptionalOmitted()
    ensures GenerateFromPath("user-posts", "/user/:id/posts/:postId?", map["id" := "123"]) == Success("/user/123/posts")
  {
    UserPostsPath();
    UserPostsGenerated();
  }

  // ---- /user/:id/post/:postId without substitutions ----

  function UserPost(): seq<Segment> {
    [Segment("/user/", Parameter("id", Required)), Segment("/post/", Parameter("postId", Required))]
  }

  lemma UserPostPath()
    ensures Build(UserPost()) == "/user/:id/post/:postId"
  {
  }

  lemma UserPostOk()
    ensures SegmentsOk(UserPost())
  {
    var a, b := UserPost()[0], UserPost()[1];
    SegmentsOkCons(b, []);
    assert [b] + [] == [b];
    SegmentsOkCons(a, [b]);
    assert [a] + [b] == UserPost();
  }

  lemma UserPostParams()
    ensures SegmentsOk(UserPost())
    ensures SegmentParams(UserPost()) == [Parameter("id", Required), Parameter("postId", Required)]
  {
    UserPostOk();
  }

  lemma UserPostMissing()
    ensures MissingNames([Parameter("id", Required), Parameter("postId", Required)], map[]) == ["id", "postId"]
  {
    var params, subs: map<string, string> := [Parameter("id", Required), Parameter("postId", Required)], map[];
    assert params[..1] == [Parameter("id", Required)];
    assert MissingNames(params[..1], subs) == ["id"];
  }

  lemma JoinMissing()
    ensures Join(["id", "postId"], ", ") == "id, postId"
  {
    assert ["id", "postId"][1..] == ["postId"];
  }

  lemma UserPostFailure()
    ensures GenerateFromPath("user-post", Build(UserPost()), map[])
            == Failure(MissingParameters("user-post", ["id", "postId"]))
  {
    UserPostParams();
    BuildReads(UserPost(), map[]);
    UserPostMissing();
  }

  lemma MissingMessage()
    ensures Message(MissingParameters("user-post", ["id", "postId"]))
            == "Cannot generate URI for route \"" + "user-post" + "\"; missing required parameters: " + "id, postId"
  {
    JoinMissing();
  }

  /** Every missing required parameter is reported, in path order, and the
      message lists them separated by commas. */
  lemma GenerateMissingParameters()
    ensures GenerateFromPath("user-post", "/user/:id/post/:postId", map[])
            == Failure(MissingParameters("user-post", ["id", "postId"]))
    ensures Message(MissingParameters("user-post", ["id", "postId"]))
            == "Cannot generate URI for route \"" + "user-post" + "\"; missing required parameters: " + "id, postId"
  {
    UserPostPath();
    UserPostFailure();
    MissingMessage();
  }

  // ---- /archive/:year?/:month?/:day? ----

  function Archive(): seq<Segment> {
    [ Segment("/archive/", Parameter("year", Optional)),
      Segment("/", Parameter("month", Optional)),
      Segment("/", Parameter("day", Optional)) ]
  }

  lemma ArchivePath()
    ensures Build(Archive()) == "/archive/:year?/:month?/:day?"
  {
  }

  lemma ArchiveOk()
    ensures SegmentsOk(Archive())
  {
    var a, b, c := Archive()[0], Archive()[1], Archive()[2];
    SegmentsOkCons(c, []);
    assert [c] + [] == [c];
    SegmentsOkCons(b, [c]);
    assert [b] + [c] == [b, c];
    SegmentsOkCons(a, [b, c]);
    assert [a] + [b, c] == Archive();
  }

  lemma ArchiveParams()
    ensures SegmentParams(Archive()) == [Parameter("year", Optional), Parameter("month", Optional), Parameter("day", Optional)]
  {
  }

  /** Every parameter of the archive path is optional, so any substitutions
      will do. */
  lemma ArchiveReady(subs: map<string, string>)
    ensures SegmentsOk(Archive())
    ensures AllRequiredPresent(SegmentParams(Archive()), subs)
  {
    ArchiveOk();
    ArchiveParams();
  }

  lemma ArchiveFilledNone()
    ensures Filled(Archive(), map[]) == "/archive///"
  {
  }

  lemma ArchiveFilledYear()
    ensures Filled(Archive(), map["year" := "2023"]) == "/archive/2023//"
  {
  }

  lemma ArchiveFilledMonth()
    ensures Filled(Archive(), map["year" := "2023", "month" := "06"]) == "/archive/2023/06/"
  {
  }

  lemma ArchiveFilledDay()
    ensures Filled(Archive(), map["year" := "2023", "month" := "06", "day" := "15"]) == "/archive/2023/06/15"
  {
  }

  lemma ArchiveNormalNone()
    ensures NormalizePath("/archive///") == "/archive"
  {
    NormalSegment("archive");
    NormalizeDropsTrailingSlashes("/archive", 3);
    assert "/archive" + seq(3, _ => '/') == "/archive///";
  }

  lemma ArchiveNormalYear()
    ensures NormalizePath("/archive/2023//") == "/archive/2023"
  {
    NormalSegment("archive");
    NormalExtend("/archive", "2023");
    NormalizeDropsTrailingSlashes("/archive/2023", 2);
    assert "/archive/2023" + seq(2, _ => '/') == "/archive/2023//";
  }

  lemma ArchiveNormalMonth()
    ensures NormalizePath("/archive/2023/06/") == "/archive/2023/06"
  {
    NormalSegment("archive");
    NormalExtend("/archive", "2023");
    NormalExtend("/archive/2023", "06");
    NormalTrailing("/archive/2023/06");
    assert "/archive/2023/06" + "/" == "/archive/2023/06/";
  }

  lemma ArchiveNormalDay()
    ensures IsNormal("/archive/2023/06/15")
  {
    NormalSegment("archive");
    NormalExtend("/archive", "2023");
    NormalExtend("/archive/2023", "06");
    NormalExtend("/archive/2023/06", "15");
  }

  lemma ArchiveValues()
    ensures ValuesColonFree(map["year" := "2023"])
    ensures ValuesColonFree(map["year" := "2023", "month" := "06"])
    ensures ValuesColonFree(map["year" := "2023", "month" := "06", "day" := "15"])
  {
    var m := map["year" := "2023", "month" := "06", "day" := "15"];
    forall k | k in m ensures ':' !in m[k] {
      assert m[k] == "2023" || m[k] == "06" || m[k] == "15";
    }
  }

  lemma ArchiveNoneGenerated()
    ensures GenerateFromPath("archive", Build(Archive()), map[]) == Success("/archive")
  {
    ArchiveReady(map[]);
    ArchiveFilledNone();
    ArchiveNormalNone();
    GenerateFromSegments("archive", Archive(), map[], "/archive///");
  }

  lemma ArchiveYearGenerated()
    ensures GenerateFromPath("archive", Build(Archive()), map["year" := "2023"]) == Success("/archive/2023")
  {
    ArchiveValues();
    ArchiveReady(map["year" := "2023"]);
    ArchiveFilledYear();
    ArchiveNormalYear();
    GenerateFromSegments("archive", Archive(), map["year" := "2023"], "/archive/2023//");
  }

  lemma ArchiveMonthGenerated()
    ensures GenerateFromPath("archive", Build(Archive()), map["year" := "2023", "month" := "06"]) == Success("/archive/2023/06")
  {
    ArchiveValues();
    ArchiveReady(map["year" := "2023", "month" := "06"]);
    ArchiveFilledMonth();
    ArchiveNormalMonth();
    GenerateFromSegments("archive", Archive(), map["year" := "2023", "month" := "06"], "/archive/2023/06/");
  }

  lemma ArchiveDayGenerated()
    ensures GenerateFromPath("archive", Build(Archive()), map["year" := "2023", "month" := "06", "day" := "15"])
            == Success("/archive/2023/06/15")
  {
    ArchiveValues();
    ArchiveReady(map["year" := "2023", "month" := "06", "day" := "15"]);
    ArchiveFilledDay();
    ArchiveNormalDay();
    GenerateFromSegmentsNormal("archive", Archive(), map["year" := "2023", "month" := "06", "day" := "15"], "/archive/2023/06/15");
  }

  /** A chain of optional parameters: each omitted one vanishes with its slash. */
  lemma GenerateArchiveChain()
    ensures GenerateFromPath("archive", "/archive/:year?/:month?/:day?", map[])
            == Success("/archive")
    ensures GenerateFromPath("archive", "/archive/:year?/:month?/:day?", map["year" := "2023"])
            == Success("/archive/2023")
    ensures GenerateFromPath("archive", "/archive/:year?/:month?/:day?", map["year" := "2023", "month" := "06"])
            == Success("/archive/2023/06")
    ensures GenerateFromPath("archive", "/archive/:year?/:month?/:day?", map["year" := "2023", "month" := "06", "day" := "15"])
            == Success("/archive/2023/06/15")
  {
    ArchivePath();
    ArchiveNoneGenerated();
    ArchiveYearGenerated();
    ArchiveMonthGenerated();
    ArchiveDayGenerated();
  }

  // ---- /files/:path* ----

  function Files(): seq<Segment> {
    [Segment("/files/", Parameter("path", Wildcard))]
  }

  lemma FilesOk()
    ensures SegmentsOk(Files())
  {
    SegmentsOkCons(Files()[0], []);
    assert [Files()[0]] + [] == Files();
  }

  lemma FilesFacts()
    ensures Build(Files()) == "/files/:path*"
    ensures SegmentsOk(Files())
    ensures SegmentParams(Files()) == [Parameter("path", Wildcard)]
  {
    FilesOk();
  }

  lemma FilesNormalNone()
    ensures NormalizePath("/files/") == "/files"
  {
    NormalSegment("files");
    NormalTrailing("/files");
    assert "/files" + "/" == "/files/";
  }

  lemma FilesNormalPath()
    ensures IsNormal("/files/documents/file.txt")
  {
    NormalSegment("files");
    NormalExtend("/files", "documents");
    NormalExtend("/files/documents", "file.txt");
  }

  lemma FilesFilledPath()
    ensures Filled(Files(), map["path" := "documents/file.txt"]) == "/files/documents/file.txt"
  {
  }

  lemma FilesNoneGenerated()
    ensures GenerateFromPath("files", Build(Files()), map[]) == Success("/files")
  {
    FilesFacts();
    assert Filled(Files(), map[]) == "/files/";
    FilesNormalNone();
    GenerateFromSegments("files", Files(), map[], "/files/");
  }

  lemma FilesPathGenerated()
    ensures GenerateFromPath("files", Build(Files()), map["path" := "documents/file.txt"])
            == Success("/files/documents/file.txt")
  {
    assert ValuesColonFree(map["path" := "documents/file.txt"]);
    FilesFacts();
    FilesFilledPath();
    FilesNormalPath();
    GenerateFromSegmentsNormal("files", Files(), map["path" := "documents/file.txt"], "/files/documents/file.txt");
  }

  /** A wildcard takes a value with slashes, and disappears when omitted. */
  lemma GenerateWildcard()
    ensures GenerateFromPath("files", "/files/:path*", map[]) == Success("/files")
    ensures GenerateFromPath("files", "/files/:path*", map["path" := "documents/file.txt"])
            == Success("/files/documents/file.txt")
  {
    FilesFacts();
    FilesNoneGenerated();
    FilesPathGenerated();
  }

  /** The root path is generated as itself. */
  lemma GenerateRoot()
    ensures GenerateFromPath("root", "/", map[]) == Success("/")
  {
    GenerateStaticPath("root", "/", map[]);
  }

  // ---- the prefix collision of replacePathParameters ----

  function IdIdx(): seq<Segment> {
    [Segment("/user/", Parameter("id", Required)), Segment("/", Parameter("idx", Required))]
  }

  lemma IdIdxOk()
    ensures SegmentsOk(IdIdx())
  {
    var a, b := IdIdx()[0], IdIdx()[1];
    SegmentsOkCons(b, []);
    assert [b] + [] == [b];
    SegmentsOkCons(a, [b]);
    assert [a] + [b] == IdIdx();
  }

  lemma IdIdxFacts()
    ensures Build(IdIdx()) == "/user/:id/:idx"
    ensures SegmentsOk(IdIdx())
    ensures SegmentParams(IdIdx()) == [Parameter("id", Required), Parameter("idx", Required)]
  {
    IdIdxOk();
  }

  lemma IdIdxPatterns()
    ensures PatternsFor([Parameter("id", Required), Parameter("idx", Required)], map["id" := "1", "idx" := "2"])
            == [Pattern("id", "1", false), Pattern("idx", "2", false)]
  {
  }

  lemma IdMatchesIdx()
    ensures ReplaceAll(":idx", Pattern("id", "1", false), false) == "1x"
  {
    var pat := Pattern("id", "1", false);
    assert MatchLength(":idx", pat, false) == Some(3);
    assert ":idx"[3..] == "x";
    ReplaceAllSkips("x", "", pat, false);
    assert "x" + "" == "x";
  }

  lemma IdMatchesIdxAfterSlash()
    ensures ReplaceAll("/" + ":idx", Pattern("id", "1", false), false) == "/" + "1x"
  {
    IdMatchesIdx();
    ReplaceAllSkips("/", ":idx", Pattern("id", "1", false), false);
  }

  lemma IdMatchesBoth()
    ensures ReplaceAll(":id" + "/:idx", Pattern("id", "1", false), false) == "1" + "/1x"
  {
    var pat := Pattern("id", "1", false);
    IdMatchesIdxAfterSlash();
    assert MatchLength(":id" + "/:idx", pat, false) == Some(3);
    assert (":id" + "/:idx")[3..] == "/" + ":idx";
  }

  lemma AsWrittenRewritesIdx()
    ensures ReplaceAll("/user/" + ":id/:idx", Pattern("id", "1", false), false) == "/user/" + "1/1x"
  {
    IdMatchesBoth();
    assert ":id" + "/:idx" == ":id/:idx";
    ReplaceAllSkips("/user/", ":id/:idx", Pattern("id", "1", false), false);
  }

  lemma IdIdxAsWritten()
    ensures SubstituteAsWritten(Build(IdIdx()), SegmentParams(IdIdx()), map["id" := "1", "idx" := "2"]) == "/user/1/1x"
  {
    IdIdxFacts();
    IdIdxPatterns();
    AsWrittenRewritesIdx();
    assert "/user/" + ":id/:idx" == "/user/:id/:idx";
    assert "/user/" + "1/1x" == "/user/1/1x";
    var pats := [Pattern("id", "1", false), Pattern("idx", "2", false)];
    ApplyPatternsNoColon("/user/1/1x", pats[1..], false);
  }

  lemma IdIdxExact()
    ensures Substitute(Build(IdIdx()), SegmentParams(IdIdx()), map["id" := "1", "idx" := "2"]) == "/user/1/2"
  {
    var subs := map["id" := "1", "idx" := "2"];
    IdIdxFacts();
    BuildReads(IdIdx(), subs);
    assert Filled(IdIdx(), subs) == "/user/1/2";
    assert NamesColonFree(SegmentParams(IdIdx()));
    assert ValuesColonFree(subs);
    SubstitutionMatchesTemplate(Build(IdIdx()), subs, true);
  }

  /** Two parameters where one name is a prefix of the other: the source's
      patterns turn `/user/:id/:idx` with id = 1 and idx = 2 into
      `/user/1/1x`; whole-name matching gives `/user/1/2`. */
  lemma PrefixCollision()
    ensures SubstituteAsWritten("/user/:id/:idx", ExtractRouteParameters("/user/:id/:idx"), map["id" := "1", "idx" := "2"])
            == "/user/1/1x"
    ensures Substitute("/user/:id/:idx", ExtractRouteParameters("/user/:id/:idx"), map["id" := "1", "idx" := "2"])
            == "/user/1/2"
  {
    IdIdxFacts();
    BuildReads(IdIdx(), map[]);
    IdIdxAsWritten();
    IdIdxExact();
  }
}
