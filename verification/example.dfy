/**
 * A worked example: three records, two contents, two
 * users, two platforms, with the number parsers fixed to the values it uses.
 */
module EngagementExample {
  import opened Wrappers
  import opened Interactions
  import Bst
  import Queue
  import Ranking
  import Metrics
  import C = ContentEntity
  import U = UserEntity
  import P = PlatformEntity
  import opened Engagement

  function ParseIdExample(s: string): Option<int> {
    if s == "1" then Some(1) else if s == "2" then Some(2)
    else if s == "10" then Some(10) else if s == "11" then Some(11) else None
  }

  function ParseRealExample(s: string): Option<real> {
    if s == "30" then Some(30.0) else None
  }

  const First: Record := map["id_conteudo" := "1", "id_usuario" := "10", "plataforma" := "X",
    "tipo_interacao" := "view_start", "watch_duration_seconds" := "30"]
  const Second: Record := map["id_conteudo" := "1", "id_usuario" := "11", "plataforma" := "X",
    "tipo_interacao" := "like"]
  const Third: Record := map["id_conteudo" := "2", "id_usuario" := "10", "plataforma" := "Y",
    "tipo_interacao" := "comment", "comment_text" := "nice"]

  const P1 := Parsed(1, 10, C.DefaultName(1), "X", Some("view_start"), 30.0, None)
  const P2 := Parsed(1, 11, C.DefaultName(1), "X", Some("like"), 0.0, None)
  const P3 := Parsed(2, 10, C.DefaultName(2), "Y", Some("comment"), 0.0, Some("nice"))

  lemma ParseFirst()
    ensures Parse(First, ParseIdExample, ParseRealExample) == Some(P1)
  {
    assert Field(First, "nome_conteudo") == None && Field(First, "comment_text") == None;
  }

  lemma ParseSecond()
    ensures Parse(Second, ParseIdExample, ParseRealExample) == Some(P2)
  {
    assert Field(Second, "nome_conteudo") == None && Field(Second, "comment_text") == None;
    assert Field(Second, "watch_duration_seconds") == None;
  }

  lemma ParseThird()
    ensures Parse(Third, ParseIdExample, ParseRealExample) == Some(P3)
  {
    assert Field(Third, "nome_conteudo") == None && Field(Third, "watch_duration_seconds") == None;
  }

  /** All three example records pass the skip rules with the fields listed above. */
  lemma ParseExample()
    ensures Parse(First, ParseIdExample, ParseRealExample) == Some(P1)
    ensures Parse(Second, ParseIdExample, ParseRealExample) == Some(P2)
    ensures Parse(Third, ParseIdExample, ParseRealExample) == Some(P3)
  {
    ParseFirst();
    ParseSecond();
    ParseThird();
  }

  /** Three records through the loop are three steps. */
  lemma FoldThree(e: Engine, a: Record, b: Record, c: Record, parseInt: IntParser, parseReal: RealParser)
    ensures Fold(e, [a, b, c], parseInt, parseReal)
         == Step(Step(Step(e, a, parseInt, parseReal), b, parseInt, parseReal), c, parseInt, parseReal)
  {
    var e1 := Step(e, a, parseInt, parseReal);
    var e2 := Step(e1, b, parseInt, parseReal);
    var e3 := Step(e2, c, parseInt, parseReal);
    assert [a, b, c][1..] == [b, c];
    assert [b, c][1..] == [c];
    assert [c][1..] == [];
    assert Fold(e3, [], parseInt, parseReal) == e3;
    assert Fold(e2, [c], parseInt, parseReal) == e3;
    assert Fold(e1, [b, c], parseInt, parseReal) == e3;
  }

  /** An accepted record's step is its ingestion. */
  lemma StepAccepted(e: Engine, rec: Record, p: Parsed)
    requires Parse(rec, ParseIdExample, ParseRealExample) == Some(p)
    ensures Step(e, rec, ParseIdExample, ParseRealExample) == Ingest(e, p)
  {
  }

  /** The three records are all accepted, in order. */
  lemma ExampleFold(e0: Engine)
    ensures Fold(e0, [First, Second, Third], ParseIdExample, ParseRealExample)
         == Ingest(Ingest(Ingest(e0, P1), P2), P3)
  {
    ParseExample();
    FoldThree(e0, First, Second, Third, ParseIdExample, ParseRealExample);
    var e1 := Ingest(e0, P1);
    StepAccepted(e0, First, P1);
    var e2 := Ingest(e1, P2);
    StepAccepted(e1, Second, P2);
    StepAccepted(e2, Third, P3);
  }

  /** The per-entity figures of the example's interaction lists. */
  lemma ExampleMetrics()
    ensures Metrics.ViewTime([InteractionOf(P1), InteractionOf(P2)]) == 30.0
    ensures Metrics.Comments([InteractionOf(P3)]) == ["nice"]
    ensures Metrics.EngagementCount([InteractionOf(P1), InteractionOf(P2)]) == 1
  {
    var i1, i2, i3 := InteractionOf(P1), InteractionOf(P2), InteractionOf(P3);
    assert [i1, i2][..1] == [i1];
    assert [i1][..0] == [];
    assert [i3][..0] == [];
    assert Metrics.ViewTime([i1]) == 30.0;
    assert Metrics.EngagementCount([i1]) == 0;
  }

  /** A record for a content not yet indexed creates it with just that interaction. */
  lemma ContentStepNew(t: Bst.Tree<C.Content>, p: Parsed)
    requires ContentsOk(t) && p.contentId !in Bst.Keys(t)
    ensures ContentsOk(UpsertContent(t, p))
    ensures Bst.Contents(UpsertContent(t, p))[p.contentId].tally.interactions == [InteractionOf(p)]
  {
    UpsertContentEffect(t, p);
  }

  /** A record for an indexed content appends its interaction there. */
  lemma ContentStepSame(t: Bst.Tree<C.Content>, p: Parsed)
    requires ContentsOk(t) && p.contentId in Bst.Keys(t)
    ensures ContentsOk(UpsertContent(t, p))
    ensures Bst.Contents(UpsertContent(t, p))[p.contentId].tally.interactions
         == Bst.Contents(t)[p.contentId].tally.interactions + [InteractionOf(p)]
  {
    UpsertContentEffect(t, p);
  }

  /** A record for another content leaves this one alone. */
  lemma ContentStepOther(t: Bst.Tree<C.Content>, p: Parsed, k: int)
    requires ContentsOk(t) && k in Bst.Keys(t) && k != p.contentId
    ensures Bst.Contents(UpsertContent(t, p))[k] == Bst.Contents(t)[k]
  {
    UpsertContentEffect(t, p);
  }

  /** Two records on one content and a third on another, into an empty content index. */
  lemma ThreeContents(t0: Bst.Tree<C.Content>, p1: Parsed, p2: Parsed, p3: Parsed)
    requires ContentsOk(t0) && Bst.Keys(t0) == {}
    requires p1.contentId == p2.contentId && p3.contentId != p1.contentId
    ensures var t := UpsertContent(UpsertContent(UpsertContent(t0, p1), p2), p3);
      && ContentsOk(t)
      && Bst.Keys(t) == {p1.contentId, p3.contentId}
      && Bst.Contents(t)[p1.contentId].tally.interactions == [InteractionOf(p1), InteractionOf(p2)]
      && Bst.Contents(t)[p3.contentId].tally.interactions == [InteractionOf(p3)]
  {
    var t1 := UpsertContent(t0, p1);
    var t2 := UpsertContent(t1, p2);
    ContentStepNew(t0, p1);
    ContentStepSame(t1, p2);
    ContentStepNew(t2, p3);
    ContentStepOther(t2, p3, p1.contentId);
  }

  /** Content 1 ends with the first two interactions, content 2 with the third. */
  lemma ExampleContents(e0: Engine)
    requires ContentsOk(e0.contents) && Bst.Keys(e0.contents) == {}
    ensures var t := UpsertContent(UpsertContent(UpsertContent(e0.contents, P1), P2), P3);
      && ContentsOk(t)
      && Bst.Keys(t) == {1, 2}
      && Bst.Contents(t)[1].tally.interactions == [InteractionOf(P1), InteractionOf(P2)]
      && Bst.Contents(t)[2].tally.interactions == [InteractionOf(P3)]
  {
    ThreeContents(e0.contents, P1, P2, P3);
  }

  /** A record by a user not yet indexed creates it with just that interaction. */
  lemma UserStepNew(t: Bst.Tree<U.User>, p: Parsed)
    requires UsersOk(t) && p.userId !in Bst.Keys(t)
    ensures UsersOk(UpsertUser(t, p))
    ensures Bst.Contents(UpsertUser(t, p))[p.userId].tally.interactions == [InteractionOf(p)]
  {
    UpsertUserEffect(t, p);
  }

  /** A record by an indexed user appends its interaction there. */
  lemma UserStepSame(t: Bst.Tree<U.User>, p: Parsed)
    requires UsersOk(t) && p.userId in Bst.Keys(t)
    ensures UsersOk(UpsertUser(t, p))
    ensures Bst.Contents(UpsertUser(t, p))[p.userId].tally.interactions
         == Bst.Contents(t)[p.userId].tally.interactions + [InteractionOf(p)]
  {
    UpsertUserEffect(t, p);
  }

  /** A record by another user leaves this one alone. */
  lemma UserStepOther(t: Bst.Tree<U.User>, p: Parsed, k: int)
    requires UsersOk(t) && k in Bst.Keys(t) && k != p.userId
    ensures Bst.Contents(UpsertUser(t, p))[k] == Bst.Contents(t)[k]
  {
    UpsertUserEffect(t, p);
  }

  /** Two records by one user around a record by another, into an empty user index. */
  lemma ThreeUsers(t0: Bst.Tree<U.User>, p1: Parsed, p2: Parsed, p3: Parsed)
    requires UsersOk(t0) && Bst.Keys(t0) == {}
    requires p1.userId == p3.userId && p2.userId != p1.userId
    ensures var t := UpsertUser(UpsertUser(UpsertUser(t0, p1), p2), p3);
      && UsersOk(t)
      && Bst.Contents(t)[p1.userId].tally.interactions == [InteractionOf(p1), InteractionOf(p3)]
  {
    var t1 := UpsertUser(t0, p1);
    var t2 := UpsertUser(t1, p2);
    UserStepNew(t0, p1);
    UserStepNew(t1, p2);
    UserStepOther(t1, p2, p1.userId);
    UserStepSame(t2, p3);
  }

  /** User 10 ends with the first and third interactions. */
  lemma ExampleUsers(e0: Engine)
    requires UsersOk(e0.users) && Bst.Keys(e0.users) == {}
    ensures var t := UpsertUser(UpsertUser(UpsertUser(e0.users, P1), P2), P3);
      && UsersOk(t)
      && Bst.Contents(t)[10].tally.interactions == [InteractionOf(P1), InteractionOf(P3)]
  {
    ThreeUsers(e0.users, P1, P2, P3);
  }

  /** A record on a platform not yet registered creates it with just that interaction. */
  lemma PlatformStepNew(m: map<string, P.Platform>, o: seq<string>, p: Parsed)
    requires RegistryOk(m, o) && p.platform !in m
    ensures RegistryOk(UpsertPlatform(m, p), UpsertOrder(m, o, p.platform))
    ensures UpsertPlatform(m, p)[p.platform].tally.interactions == [InteractionOf(p)]
  {
    UpsertPlatformEffect(m, o, p);
  }

  /** A record on a registered platform appends its interaction there. */
  lemma PlatformStepSame(m: map<string, P.Platform>, o: seq<string>, p: Parsed)
    requires RegistryOk(m, o) && p.platform in m
    ensures RegistryOk(UpsertPlatform(m, p), UpsertOrder(m, o, p.platform))
    ensures UpsertPlatform(m, p)[p.platform].tally.interactions
         == m[p.platform].tally.interactions + [InteractionOf(p)]
  {
    UpsertPlatformEffect(m, o, p);
  }

  /** Two records on one platform and a third on another, into an empty registry. */
  lemma ThreePlatforms(m0: map<string, P.Platform>, o0: seq<string>, p1: Parsed, p2: Parsed, p3: Parsed)
    requires RegistryOk(m0, o0) && m0 == map[]
    requires p1.platform == p2.platform && p3.platform != p1.platform
    ensures var m := UpsertPlatform(UpsertPlatform(UpsertPlatform(m0, p1), p2), p3);
      && PlatformOk(p1.platform, m[p1.platform])
      && m[p1.platform].tally.interactions == [InteractionOf(p1), InteractionOf(p2)]
  {
    var m1 := UpsertPlatform(m0, p1);
    var o1 := UpsertOrder(m0, o0, p1.platform);
    var m2 := UpsertPlatform(m1, p2);
    var o2 := UpsertOrder(m1, o1, p2.platform);
    PlatformStepNew(m0, o0, p1);
    PlatformStepSame(m1, o1, p2);
    assert PlatformOk(p1.platform, m2[p1.platform]);
  }

  /** Platform X ends with the first two interactions. */
  lemma ExamplePlatforms(e0: Engine)
    requires RegistryOk(e0.platforms, e0.platformOrder) && e0.platforms == map[]
    ensures var m := UpsertPlatform(UpsertPlatform(UpsertPlatform(e0.platforms, P1), P2), P3);
      && PlatformOk("X", m["X"])
      && m["X"].tally.interactions == [InteractionOf(P1), InteractionOf(P2)]
  {
    ThreePlatforms(e0.platforms, e0.platformOrder, P1, P2, P3);
  }

  /**
   * From an empty well-kept engine, the three records leave content 1 with two
   * interactions and 30 seconds watched, content 2 with one interaction and the
   * comment "nice", user 10 with two interactions, and platform X with two
   * interactions of which one is engagement.
   */
  lemma ExampleFigures(e0: Engine)
    requires WellFormed(e0)
    requires Bst.Keys(e0.contents) == {} && Bst.Keys(e0.users) == {} && e0.platforms == map[]
    ensures var e3 := Ingest(Ingest(Ingest(e0, P1), P2), P3);
      && Bst.Contents(e3.contents)[1].tally.total == 2
      && Bst.Contents(e3.contents)[1].tally.totalTime == 30.0
      && Bst.Contents(e3.contents)[2].tally.total == 1
      && C.CommentList(Bst.Contents(e3.contents)[2]) == ["nice"]
      && Bst.Contents(e3.users)[10].tally.total == 2
      && e3.platforms["X"].tally.total == 2
      && P.EngagementTotal(e3.platforms["X"]) == 1
  {
    ExampleContents(e0);
    ExampleUsers(e0);
    ExamplePlatforms(e0);
    ExampleMetrics();
  }

  /** With two contents, the one with strictly more watch time is the top-1. */
  lemma TopOfTwo(e: Engine, a: int, b: int)
    requires ContentsOk(e.contents) && Bst.Keys(e.contents) == {a, b} && a != b
    requires ContentTime(Bst.Contents(e.contents)[a]) > ContentTime(Bst.Contents(e.contents)[b])
    ensures TopContentsByTime(e, Some(1)) == [Bst.Contents(e.contents)[a]]
  {
    var t := e.contents;
    var ca := Bst.Contents(t)[a];
    var all := Bst.InOrderValues(t);
    assert ca in all by {
      Bst.InOrderMatchesContents(t);
      assert (a, ca) in Bst.InOrder(t);
      var i :| 0 <= i < |Bst.InOrder(t)| && Bst.InOrder(t)[i] == (a, ca);
      assert all[i] == ca;
    }
    assert forall y :: y in all && y != ca ==> ContentTime(y) < ContentTime(ca) by {
      StoredContents(t, all);
      forall y | y in all && y != ca ensures ContentTime(y) < ContentTime(ca) {
        assert y.id in Bst.Keys(t) && y.id != a;
      }
    }
    Ranking.TopIsStrictMaximum(all, ContentTime, ca);
  }

  /** Content 1 has watched 30 seconds and content 2 none. */
  lemma ExampleTimes(t: Bst.Tree<C.Content>)
    requires ContentsOk(t) && 1 in Bst.Contents(t) && 2 in Bst.Contents(t)
    requires Bst.Contents(t)[1].tally.interactions == [InteractionOf(P1), InteractionOf(P2)]
    requires Bst.Contents(t)[2].tally.interactions == [InteractionOf(P3)]
    ensures ContentTime(Bst.Contents(t)[1]) == 30.0
    ensures ContentTime(Bst.Contents(t)[2]) == 0.0
  {
    ExampleMetrics();
    assert ContentOk(1, Bst.Contents(t)[1]);
    assert ContentOk(2, Bst.Contents(t)[2]);
    assert [InteractionOf(P3)][..0] == [];
  }

  /** The top-1 content by watch time is content 1. */
  lemma ExampleTopContent(e0: Engine)
    requires WellFormed(e0)
    requires Bst.Keys(e0.contents) == {} && Bst.Keys(e0.users) == {} && e0.platforms == map[]
    ensures var e3 := Ingest(Ingest(Ingest(e0, P1), P2), P3);
      TopContentsByTime(e3, Some(1)) == [Bst.Contents(e3.contents)[1]]
  {
    var e3 := Ingest(Ingest(Ingest(e0, P1), P2), P3);
    ExampleContents(e0);
    ExampleMetrics();
    ExampleTimes(e3.contents);
    TopOfTwo(e3, 1, 2);
  }
}
