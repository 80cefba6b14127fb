/**
 * The orchestrator (`SistemaAnaliseEngajamento`): a staging queue of raw field
 * maps, two search trees of content and users keyed by id, and a platform
 * registry keyed by name. Processing drains the queue, skips malformed records,
 * finds or creates the three entities and registers one interaction with each.
 */
module Engagement {
  import opened Wrappers
  import opened Collections
  import opened Interactions
  import opened Metrics
  import Queue
  import Bst
  import Ranking
  import C = ContentEntity
  import U = UserEntity
  import P = PlatformEntity

  /** A raw record: the field map of one input row; a missing field is an absent key. */
  type Record = map<string, string>

  /** The number parsers the source borrows from Python (`int`, `float`); None means the parse failed. */
  type IntParser = string -> Option<int>
  type RealParser = string -> Option<real>

  /** The platform registry is a dictionary; `platformOrder` keeps its insertion order. */
  datatype Engine = Engine(
    contents: Bst.Tree<C.Content>,
    users: Bst.Tree<U.User>,
    platforms: map<string, P.Platform>,
    platformOrder: seq<string>)

  datatype System = System(queue: Queue.Queue<Record>, engine: Engine)

  /** The fields of a record that passed every skip rule. */
  datatype Parsed = Parsed(
    contentId: int,
    userId: int,
    contentName: string,
    platform: string,
    kind: Option<string>,
    duration: real,
    comment: Option<string>)

  function Field(rec: Record, name: string): Option<string> {
    if name in rec then Some(rec[name]) else None
  }

  /** Python truthiness of an optional string: present and non-empty. */
  predicate Truthy(o: Option<string>) {
    o.Some? && o.value != ""
  }

  // ---------------------------------------------------------------------------
  // Invariant of the indexes

  predicate ContentOk(k: int, c: C.Content) {
    c.id == k && Valid(c.tally) && forall i :: i in c.tally.interactions ==> i.contentId == k
  }

  predicate UserOk(k: int, u: U.User) {
    u.id == k && Valid(u.tally) && forall i :: i in u.tally.interactions ==> i.userId == k
  }

  predicate PlatformOk(n: string, p: P.Platform) {
    p.name == n && Valid(p.tally) && forall i :: i in p.tally.interactions ==> i.platform == n
  }

  /** A search tree whose every node holds a well-kept content with that id. */
  predicate ContentsOk(t: Bst.Tree<C.Content>) {
    Bst.IsBst(t) && forall k :: k in Bst.Contents(t) ==> ContentOk(k, Bst.Contents(t)[k])
  }

  /** A search tree whose every node holds a well-kept user with that id. */
  predicate UsersOk(t: Bst.Tree<U.User>) {
    Bst.IsBst(t) && forall k :: k in Bst.Contents(t) ==> UserOk(k, Bst.Contents(t)[k])
  }

  /** The order lists each registered name exactly once and every platform is well kept. */
  predicate RegistryOk(m: map<string, P.Platform>, order: seq<string>) {
    && Distinct(order)
    && (forall n :: n in order ==> n in m)
    && (forall n :: n in m ==> n in order)
    && (forall n :: n in m ==> PlatformOk(n, m[n]))
  }

  /**
   * Both trees are search trees whose nodes hold the entity with that id, the
   * registry order lists each registered name once, every entity's cached
   * totals agree with its list, and every interaction is filed under its own ids.
   */
  predicate WellFormed(e: Engine) {
    ContentsOk(e.contents) && UsersOk(e.users) && RegistryOk(e.platforms, e.platformOrder)
  }

  /** The state right after construction: empty queue, trees and registry. */
  function NewSystem(): (s: System)
    ensures WellFormed(s.engine)
    ensures Queue.IsEmpty(s.queue)
    ensures Bst.Keys(s.engine.contents) == {} && Bst.Keys(s.engine.users) == {}
    ensures s.engine.platforms == map[] && s.engine.platformOrder == []
  {
    System(Queue.Empty(), Engine(Bst.Leaf, Bst.Leaf, map[], []))
  }

  // ---------------------------------------------------------------------------
  // One record

  /** `float(field or 0)`, with 0.0 when the parse fails: a bad duration never skips the record. */
  function ParseDuration(raw: Option<string>, parseReal: RealParser): (d: real)
    ensures !Truthy(raw) ==> d == 0.0
    ensures Truthy(raw) && parseReal(raw.value).None? ==> d == 0.0
    ensures Truthy(raw) && parseReal(raw.value).Some? ==> d == parseReal(raw.value).value
  {
    if Truthy(raw) then parseReal(raw.value).GetOr(0.0) else 0.0
  }

  /**
   * The skip rules, in source order: both ids present and non-empty, both ids
   * parse as integers, platform present and non-empty. None means "skip".
   */
  function Parse(rec: Record, parseInt: IntParser, parseReal: RealParser): Option<Parsed>
  {
    var rawContent := Field(rec, "id_conteudo");
    var rawUser := Field(rec, "id_usuario");
    if !Truthy(rawContent) || !Truthy(rawUser) then None
    else
      var contentId := parseInt(rawContent.value);
      var userId := parseInt(rawUser.value);
      if contentId.None? || userId.None? then None
      else
        var name := Field(rec, "nome_conteudo");
        var contentName := if Truthy(name) then name.value else C.DefaultName(contentId.value);
        var platform := Field(rec, "plataforma");
        if !Truthy(platform) then None
        else
          Some(Parsed(
            contentId.value, userId.value, contentName, platform.value,
            Field(rec, "tipo_interacao"),
            ParseDuration(Field(rec, "watch_duration_seconds"), parseReal),
            Field(rec, "comment_text")))
  }

  /**
   * A record is accepted exactly when both ids are present, non-empty and
   * integers and the platform is present and non-empty; an accepted record
   * carries a non-empty content name (the given one when present) and the
   * parsed duration.
   */
  lemma ParseAccepts(rec: Record, parseInt: IntParser, parseReal: RealParser)
    ensures Parse(rec, parseInt, parseReal).Some? <==>
      && Truthy(Field(rec, "id_conteudo")) && Truthy(Field(rec, "id_usuario"))
      && parseInt(Field(rec, "id_conteudo").value).Some?
      && parseInt(Field(rec, "id_usuario").value).Some?
      && Truthy(Field(rec, "plataforma"))
    ensures var r := Parse(rec, parseInt, parseReal);
      r.Some? ==>
        && r.value.contentId == parseInt(rec["id_conteudo"]).value
        && r.value.userId == parseInt(rec["id_usuario"]).value
        && r.value.platform == rec["plataforma"]
        && r.value.contentName != ""
        && (Truthy(Field(rec, "nome_conteudo")) ==> r.value.contentName == rec["nome_conteudo"])
        && (!Truthy(Field(rec, "nome_conteudo")) ==> r.value.contentName == C.DefaultName(r.value.contentId))
        && r.value.duration == ParseDuration(Field(rec, "watch_duration_seconds"), parseReal)
  {
  }

  /** The interaction an accepted record produces. */
  function InteractionOf(p: Parsed): Interaction {
    NewInteraction(p.userId, p.contentId, p.platform, p.kind, p.duration, p.comment)
  }

  /** The platform registered under `name`, or a new one. */
  function FindOrNewPlatform(m: map<string, P.Platform>, name: string): (q: P.Platform)
    ensures (forall n :: n in m ==> PlatformOk(n, m[n])) ==> PlatformOk(name, q)
    ensures name in m ==> q == m[name]
    ensures name !in m ==> q == P.NewPlatform(name)
  {
    if name in m then m[name] else P.NewPlatform(name)
  }

  /** The content stored under `id`, or a new one carrying `name`. */
  function FindOrNewContent(t: Bst.Tree<C.Content>, id: int, name: string): (c: C.Content)
    ensures ContentsOk(t) ==> ContentOk(id, c)
    ensures Bst.IsBst(t) && id in Bst.Contents(t) ==> c == Bst.Contents(t)[id]
    ensures Bst.IsBst(t) && id !in Bst.Contents(t) ==> c == C.NewContent(id, Some(name))
  {
    match Bst.Search(t, id)
    case Some(c) => c
    case None => C.NewContent(id, Some(name))
  }

  /** The user stored under `id`, or a new one. */
  function FindOrNewUser(t: Bst.Tree<U.User>, id: int): (u: U.User)
    ensures UsersOk(t) ==> UserOk(id, u)
    ensures Bst.IsBst(t) && id in Bst.Contents(t) ==> u == Bst.Contents(t)[id]
    ensures Bst.IsBst(t) && id !in Bst.Contents(t) ==> u == U.NewUser(id)
  {
    match Bst.Search(t, id)
    case Some(u) => u
    case None => U.NewUser(id)
  }

  /** Content find-or-create, then registration; the tree gains at most the one key. */
  function UpsertContent(t: Bst.Tree<C.Content>, p: Parsed): (r: Bst.Tree<C.Content>)
    ensures Bst.Keys(r) == Bst.Keys(t) + {p.contentId}
  {
    Bst.Insert(t, p.contentId, C.RegisterInteraction(FindOrNewContent(t, p.contentId, p.contentName), InteractionOf(p)))
  }

  /** User find-or-create, then registration; the tree gains at most the one key. */
  function UpsertUser(t: Bst.Tree<U.User>, p: Parsed): (r: Bst.Tree<U.User>)
    ensures Bst.Keys(r) == Bst.Keys(t) + {p.userId}
  {
    Bst.Insert(t, p.userId, U.RegisterInteraction(FindOrNewUser(t, p.userId), InteractionOf(p)))
  }

  /** Platform find-or-create, then registration; the registry gains at most the one name. */
  function UpsertPlatform(m: map<string, P.Platform>, p: Parsed): (r: map<string, P.Platform>)
    ensures r.Keys == m.Keys + {p.platform}
  {
    m[p.platform := P.RegisterInteraction(FindOrNewPlatform(m, p.platform), InteractionOf(p))]
  }

  /** A name registered for the first time goes to the end of the registry order. */
  function UpsertOrder(m: map<string, P.Platform>, order: seq<string>, name: string): seq<string> {
    if name in m then order else order + [name]
  }

  /**
   * `processar_interacoes_da_fila` for one accepted record: find-or-create the
   * platform, the content and the user, then register the new interaction with
   * all three.
   */
  function Ingest(e: Engine, p: Parsed): (r: Engine)
    ensures Bst.Keys(r.contents) == Bst.Keys(e.contents) + {p.contentId}
    ensures Bst.Keys(r.users) == Bst.Keys(e.users) + {p.userId}
    ensures r.platforms.Keys == e.platforms.Keys + {p.platform}
  {
    Engine(
      UpsertContent(e.contents, p),
      UpsertUser(e.users, p),
      UpsertPlatform(e.platforms, p),
      UpsertOrder(e.platforms, e.platformOrder, p.platform))
  }

  /** One iteration of the processing loop. */
  function Step(e: Engine, rec: Record, parseInt: IntParser, parseReal: RealParser): (r: Engine)
    ensures WellFormed(e) ==> WellFormed(r)
  {
    match Parse(rec, parseInt, parseReal)
    case None => e
    case Some(p) => IngestKeepsWellFormed(e, p); Ingest(e, p)
  }

  // ---------------------------------------------------------------------------
  // What Ingest does to each index

  lemma IngestKeepsWellFormed(e: Engine, p: Parsed)
    ensures WellFormed(e) ==> WellFormed(Ingest(e, p))
  {
    if WellFormed(e) {
      UpsertContentEffect(e.contents, p);
      UpsertUserEffect(e.users, p);
      UpsertPlatformEffect(e.platforms, e.platformOrder, p);
    }
  }

  /** Registering an interaction filed under the content's own id keeps the content well kept. */
  lemma RegisterContentOk(k: int, c: C.Content, i: Interaction)
    requires ContentOk(k, c) && i.contentId == k
    ensures ContentOk(k, C.RegisterInteraction(c, i))
  {
    forall j | j in C.RegisterInteraction(c, i).tally.interactions ensures j.contentId == k {
      assert j in c.tally.interactions || j == i;
    }
  }

  /**
   * The content index: the record's content gains exactly the new interaction
   * (and keeps its name if it already existed); every other content is untouched.
   */
  lemma UpsertContentEffect(t: Bst.Tree<C.Content>, p: Parsed)
    requires ContentsOk(t)
    ensures ContentsOk(UpsertContent(t, p))
    ensures forall k :: k in Bst.Contents(t) && k != p.contentId ==>
      Bst.Contents(UpsertContent(t, p))[k] == Bst.Contents(t)[k]
    ensures p.contentId in Bst.Contents(t) ==>
      && Bst.Contents(UpsertContent(t, p))[p.contentId].name == Bst.Contents(t)[p.contentId].name
      && Bst.Contents(UpsertContent(t, p))[p.contentId].tally.interactions
         == Bst.Contents(t)[p.contentId].tally.interactions + [InteractionOf(p)]
    ensures p.contentId !in Bst.Contents(t) ==>
      && Bst.Contents(UpsertContent(t, p))[p.contentId].name == C.NewContent(p.contentId, Some(p.contentName)).name
      && Bst.Contents(UpsertContent(t, p))[p.contentId].tally.interactions == [InteractionOf(p)]
  {
    var c0 := FindOrNewContent(t, p.contentId, p.contentName);
    var c := C.RegisterInteraction(c0, InteractionOf(p));
    RegisterContentOk(p.contentId, c0, InteractionOf(p));
    Bst.InsertCorrect(t, p.contentId, c);
  }

  /** Registering an interaction filed under the user's own id keeps the user well kept. */
  lemma RegisterUserOk(k: int, u: U.User, i: Interaction)
    requires UserOk(k, u) && i.userId == k
    ensures UserOk(k, U.RegisterInteraction(u, i))
  {
    forall j | j in U.RegisterInteraction(u, i).tally.interactions ensures j.userId == k {
      assert j in u.tally.interactions || j == i;
    }
  }

  /** The user index: the record's user gains exactly the new interaction; every other user is untouched. */
  lemma UpsertUserEffect(t: Bst.Tree<U.User>, p: Parsed)
    requires UsersOk(t)
    ensures UsersOk(UpsertUser(t, p))
    ensures forall k :: k in Bst.Contents(t) && k != p.userId ==>
      Bst.Contents(UpsertUser(t, p))[k] == Bst.Contents(t)[k]
    ensures Bst.Contents(UpsertUser(t, p))[p.userId].tally.interactions
         == (if p.userId in Bst.Contents(t) then Bst.Contents(t)[p.userId].tally.interactions else [])
          + [InteractionOf(p)]
  {
    var u0 := FindOrNewUser(t, p.userId);
    var u := U.RegisterInteraction(u0, InteractionOf(p));
    RegisterUserOk(p.userId, u0, InteractionOf(p));
    Bst.InsertCorrect(t, p.userId, u);
  }

  /** Registering an interaction filed under the platform's own name keeps the platform well kept. */
  lemma RegisterPlatformOk(n: string, q: P.Platform, i: Interaction)
    requires PlatformOk(n, q) && i.platform == n
    ensures PlatformOk(n, P.RegisterInteraction(q, i))
  {
    forall j | j in P.RegisterInteraction(q, i).tally.interactions ensures j.platform == n {
      assert j in q.tally.interactions || j == i;
    }
  }

  /** The registry: the record's platform gains exactly the new interaction; a new name is appended to the order. */
  lemma UpsertPlatformEffect(m: map<string, P.Platform>, order: seq<string>, p: Parsed)
    requires RegistryOk(m, order)
    ensures RegistryOk(UpsertPlatform(m, p), UpsertOrder(m, order, p.platform))
    ensures UpsertPlatform(m, p)[p.platform].tally.interactions
         == (if p.platform in m then m[p.platform].tally.interactions else []) + [InteractionOf(p)]
    ensures forall n :: n in m && n != p.platform ==> UpsertPlatform(m, p)[n] == m[n]
  {
    var q0 := FindOrNewPlatform(m, p.platform);
    RegisterPlatformOk(p.platform, q0, InteractionOf(p));
  }

  // ---------------------------------------------------------------------------
  // The processing loop

  /** The records processed front to back, as the draining loop does. */
  function Fold(e: Engine, recs: seq<Record>, parseInt: IntParser, parseReal: RealParser): (r: Engine)
    ensures WellFormed(e) ==> WellFormed(r)
    decreases |recs|
  {
    if |recs| == 0 then e
    else Fold(Step(e, recs[0], parseInt, parseReal), recs[1..], parseInt, parseReal)
  }

  /** `processar_interacoes_da_fila`: dequeue and handle records until the queue reports empty. */
  function Process(s: System, parseInt: IntParser, parseReal: RealParser): (r: System)
    ensures Queue.IsEmpty(r.queue)
    ensures r.engine == Fold(s.engine, s.queue.items, parseInt, parseReal)
    decreases Queue.Length(s.queue)
  {
    match Queue.Dequeue(s.queue)
    case None => s
    case Some((rec, rest)) => Process(System(rest, Step(s.engine, rec, parseInt, parseReal)), parseInt, parseReal)
  }

  /** `carregar_interacoes_csv` without the file reading: the rows are enqueued verbatim, in order. */
  function Load(s: System, rows: seq<Record>): (r: System)
    ensures r.queue.items == s.queue.items + rows
    ensures r.engine == s.engine
  {
    Queue.EnqueueAllAppends(s.queue, rows);
    s.(queue := Queue.EnqueueAll(s.queue, rows))
  }

  /** `limpar_fila_interacoes`: dequeue and discard until empty; the indexes are not touched. */
  method ClearQueue(s: System) returns (r: System)
    ensures QueueSize(r) == 0
    ensures r.engine == s.engine
  {
    r := s;
    while !Queue.IsEmpty(r.queue)
      invariant r.engine == s.engine
      decreases Queue.Length(r.queue)
    {
      var next := Queue.Dequeue(r.queue);
      r := r.(queue := next.value.1);
    }
  }

  /** `esta_fila_vazia`. */
  predicate QueueIsEmpty(s: System)
    ensures QueueIsEmpty(s) <==> QueueSize(s) == 0
  {
    Queue.IsEmpty(s.queue)
  }

  /** `tamanho_fila`: the number of records still waiting. */
  function QueueSize(s: System): (n: nat)
    ensures n == |s.queue.items|
  {
    Queue.Length(s.queue)
  }

  // ---------------------------------------------------------------------------
  // Skip rules

  /** A record with a missing or empty id field changes nothing. */
  lemma SkipMissingId(e: Engine, rec: Record, parseInt: IntParser, parseReal: RealParser)
    requires !Truthy(Field(rec, "id_conteudo")) || !Truthy(Field(rec, "id_usuario"))
    ensures Step(e, rec, parseInt, parseReal) == e
  {
  }

  /** A record whose ids do not parse as integers changes nothing. */
  lemma SkipUnparsableId(e: Engine, rec: Record, parseInt: IntParser, parseReal: RealParser)
    requires "id_conteudo" in rec && "id_usuario" in rec
    requires parseInt(rec["id_conteudo"]).None? || parseInt(rec["id_usuario"]).None?
    ensures Step(e, rec, parseInt, parseReal) == e
  {
  }

  /** A record with a missing or empty platform changes nothing, even when its ids are valid. */
  lemma SkipMissingPlatform(e: Engine, rec: Record, parseInt: IntParser, parseReal: RealParser)
    requires !Truthy(Field(rec, "plataforma"))
    ensures Step(e, rec, parseInt, parseReal) == e
  {
  }

  /** A record with valid ids and a platform is always taken, and yields exactly these fields. */
  lemma AcceptWellFormedRecord(rec: Record, parseInt: IntParser, parseReal: RealParser)
    requires Truthy(Field(rec, "id_conteudo")) && Truthy(Field(rec, "id_usuario")) && Truthy(Field(rec, "plataforma"))
    requires parseInt(rec["id_conteudo"]).Some? && parseInt(rec["id_usuario"]).Some?
    ensures Parse(rec, parseInt, parseReal).Some?
    ensures Parse(rec, parseInt, parseReal).value.contentId == parseInt(rec["id_conteudo"]).value
    ensures Parse(rec, parseInt, parseReal).value.userId == parseInt(rec["id_usuario"]).value
    ensures Parse(rec, parseInt, parseReal).value.platform == rec["plataforma"]
    ensures Parse(rec, parseInt, parseReal).value.kind == Field(rec, "tipo_interacao")
    ensures Parse(rec, parseInt, parseReal).value.comment == Field(rec, "comment_text")
  {
  }

  /** The duration field never decides whether a record is skipped. */
  lemma DurationNeverSkips(rec: Record, v: string, parseInt: IntParser, parseReal: RealParser)
    ensures Parse(rec["watch_duration_seconds" := v], parseInt, parseReal).Some?
        <==> Parse(rec, parseInt, parseReal).Some?
    ensures Parse(rec - {"watch_duration_seconds"}, parseInt, parseReal).Some?
        <==> Parse(rec, parseInt, parseReal).Some?
  {
  }

  // ---------------------------------------------------------------------------
  // Count conservation

  function ContentCount(c: C.Content): int {
    c.tally.total
  }

  function UserCount(u: U.User): int {
    u.tally.total
  }

  function PlatformCount(p: P.Platform): int {
    p.tally.total
  }

  /** Sum of `total_interacoes` over the registry. */
  function PlatformTotal(m: map<string, P.Platform>, order: seq<string>): int
    requires AllIn(order, m)
  {
    SumOver(order, m, PlatformCount)
  }

  /** Number of records that pass the skip rules. */
  function CountAccepted(recs: seq<Record>, parseInt: IntParser, parseReal: RealParser): (n: nat)
    ensures n <= |recs|
  {
    if |recs| == 0 then 0
    else (if Parse(recs[0], parseInt, parseReal).Some? then 1 else 0) + CountAccepted(recs[1..], parseInt, parseReal)
  }

  lemma UpsertContentCount(t: Bst.Tree<C.Content>, p: Parsed)
    requires ContentsOk(t)
    ensures Bst.SumValues(UpsertContent(t, p), ContentCount) == Bst.SumValues(t, ContentCount) + 1
  {
    var c := C.RegisterInteraction(FindOrNewContent(t, p.contentId, p.contentName), InteractionOf(p));
    Bst.SumValuesInsert(t, p.contentId, c, ContentCount);
  }

  lemma UpsertUserCount(t: Bst.Tree<U.User>, p: Parsed)
    requires UsersOk(t)
    ensures Bst.SumValues(UpsertUser(t, p), UserCount) == Bst.SumValues(t, UserCount) + 1
  {
    var u := U.RegisterInteraction(FindOrNewUser(t, p.userId), InteractionOf(p));
    Bst.SumValuesInsert(t, p.userId, u, UserCount);
  }

  lemma UpsertPlatformCount(m: map<string, P.Platform>, order: seq<string>, p: Parsed)
    requires RegistryOk(m, order)
    ensures AllIn(UpsertOrder(m, order, p.platform), UpsertPlatform(m, p))
    ensures PlatformTotal(UpsertPlatform(m, p), UpsertOrder(m, order, p.platform)) == PlatformTotal(m, order) + 1
  {
    UpsertPlatformEffect(m, order, p);
    var q := P.RegisterInteraction(FindOrNewPlatform(m, p.platform), InteractionOf(p));
    if p.platform in m {
      SumOverUpdatePresent(order, m, PlatformCount, p.platform, q);
    } else {
      SumOverUpdateAbsent(order, m, PlatformCount, p.platform, q);
      var order' := order + [p.platform];
      assert order'[..|order'| - 1] == order;
    }
  }

  lemma {:induction false} FoldContentCount(e: Engine, recs: seq<Record>, parseInt: IntParser, parseReal: RealParser)
    requires WellFormed(e)
    ensures Bst.SumValues(Fold(e, recs, parseInt, parseReal).contents, ContentCount)
         == Bst.SumValues(e.contents, ContentCount) + CountAccepted(recs, parseInt, parseReal)
    decreases |recs|
  {
    if |recs| > 0 {
      var parsed := Parse(recs[0], parseInt, parseReal);
      if parsed.Some? {
        UpsertContentCount(e.contents, parsed.value);
      }
      FoldContentCount(Step(e, recs[0], parseInt, parseReal), recs[1..], parseInt, parseReal);
    }
  }

  lemma {:induction false} FoldUserCount(e: Engine, recs: seq<Record>, parseInt: IntParser, parseReal: RealParser)
    requires WellFormed(e)
    ensures Bst.SumValues(Fold(e, recs, parseInt, parseReal).users, UserCount)
         == Bst.SumValues(e.users, UserCount) + CountAccepted(recs, parseInt, parseReal)
    decreases |recs|
  {
    if |recs| > 0 {
      var parsed := Parse(recs[0], parseInt, parseReal);
      if parsed.Some? {
        UpsertUserCount(e.users, parsed.value);
      }
      FoldUserCount(Step(e, recs[0], parseInt, parseReal), recs[1..], parseInt, parseReal);
    }
  }

  lemma {:induction false} FoldPlatformCount(e: Engine, recs: seq<Record>, parseInt: IntParser, parseReal: RealParser)
    requires WellFormed(e)
    ensures PlatformTotal(Fold(e, recs, parseInt, parseReal).platforms, Fold(e, recs, parseInt, parseReal).platformOrder)
         == PlatformTotal(e.platforms, e.platformOrder) + CountAccepted(recs, parseInt, parseReal)
    decreases |recs|
  {
    if |recs| > 0 {
      var parsed := Parse(recs[0], parseInt, parseReal);
      if parsed.Some? {
        UpsertPlatformCount(e.platforms, e.platformOrder, parsed.value);
      }
      FoldPlatformCount(Step(e, recs[0], parseInt, parseReal), recs[1..], parseInt, parseReal);
    }
  }

  /**
   * Summed over all contents, over all users and over all platforms, the
   * interaction counts grow by exactly the number of accepted records.
   */
  lemma FoldConservesCounts(e: Engine, recs: seq<Record>, parseInt: IntParser, parseReal: RealParser)
    requires WellFormed(e)
    ensures Bst.SumValues(Fold(e, recs, parseInt, parseReal).contents, ContentCount)
         == Bst.SumValues(e.contents, ContentCount) + CountAccepted(recs, parseInt, parseReal)
    ensures Bst.SumValues(Fold(e, recs, parseInt, parseReal).users, UserCount)
         == Bst.SumValues(e.users, UserCount) + CountAccepted(recs, parseInt, parseReal)
    ensures PlatformTotal(Fold(e, recs, parseInt, parseReal).platforms, Fold(e, recs, parseInt, parseReal).platformOrder)
         == PlatformTotal(e.platforms, e.platformOrder) + CountAccepted(recs, parseInt, parseReal)
  {
    FoldContentCount(e, recs, parseInt, parseReal);
    FoldUserCount(e, recs, parseInt, parseReal);
    FoldPlatformCount(e, recs, parseInt, parseReal);
  }

  /** Content ids of the accepted records. */
  function AcceptedContentIds(recs: seq<Record>, parseInt: IntParser, parseReal: RealParser): set<int>
    decreases |recs|
  {
    if |recs| == 0 then {}
    else
      (match Parse(recs[0], parseInt, parseReal) case None => {} case Some(p) => {p.contentId})
        + AcceptedContentIds(recs[1..], parseInt, parseReal)
  }

  /** User ids of the accepted records. */
  function AcceptedUserIds(recs: seq<Record>, parseInt: IntParser, parseReal: RealParser): set<int> {
    if |recs| == 0 then {}
    else
      (match Parse(recs[0], parseInt, parseReal) case None => {} case Some(p) => {p.userId})
        + AcceptedUserIds(recs[1..], parseInt, parseReal)
  }

  /** Platform names of the accepted records. */
  function AcceptedPlatforms(recs: seq<Record>, parseInt: IntParser, parseReal: RealParser): set<string> {
    if |recs| == 0 then {}
    else
      (match Parse(recs[0], parseInt, parseReal) case None => {} case Some(p) => {p.platform})
        + AcceptedPlatforms(recs[1..], parseInt, parseReal)
  }

  /**
   * Find-or-create never duplicates: the content index ends up holding exactly
   * the previous ids plus the content ids of the accepted records.
   */
  lemma {:induction false} FoldContentKeys(e: Engine, recs: seq<Record>, parseInt: IntParser, parseReal: RealParser)
    ensures Bst.Keys(Fold(e, recs, parseInt, parseReal).contents)
         == Bst.Keys(e.contents) + AcceptedContentIds(recs, parseInt, parseReal)
    decreases |recs|
  {
    if |recs| > 0 {
      var e' := Step(e, recs[0], parseInt, parseReal);
      FoldContentKeys(e', recs[1..], parseInt, parseReal);
    }
  }

  /** Likewise for the user index. */
  lemma {:induction false} FoldUserKeys(e: Engine, recs: seq<Record>, parseInt: IntParser, parseReal: RealParser)
    ensures Bst.Keys(Fold(e, recs, parseInt, parseReal).users)
         == Bst.Keys(e.users) + AcceptedUserIds(recs, parseInt, parseReal)
    decreases |recs|
  {
    if |recs| > 0 {
      var e' := Step(e, recs[0], parseInt, parseReal);
      FoldUserKeys(e', recs[1..], parseInt, parseReal);
    }
  }

  /** Likewise for the platform registry. */
  lemma {:induction false} FoldPlatformKeys(e: Engine, recs: seq<Record>, parseInt: IntParser, parseReal: RealParser)
    ensures Fold(e, recs, parseInt, parseReal).platforms.Keys
         == e.platforms.Keys + AcceptedPlatforms(recs, parseInt, parseReal)
    decreases |recs|
  {
    if |recs| > 0 {
      var e' := Step(e, recs[0], parseInt, parseReal);
      FoldPlatformKeys(e', recs[1..], parseInt, parseReal);
    }
  }

  // ---------------------------------------------------------------------------
  // Per-entity histories

  /** The entity an interaction list belongs to: a content id, a user id or a platform name. */
  datatype Owner = OfContent(contentId: int) | OfUser(userId: int) | OfPlatform(name: string)

  predicate Owns(o: Owner, p: Parsed) {
    match o
    case OfContent(k) => p.contentId == k
    case OfUser(k) => p.userId == k
    case OfPlatform(n) => p.platform == n
  }

  /** The interaction one record files under `o`: one if it is accepted and refers to `o`, none otherwise. */
  function OwnedBy(rec: Record, parseInt: IntParser, parseReal: RealParser, o: Owner): seq<Interaction> {
    match Parse(rec, parseInt, parseReal)
    case Some(p) => if Owns(o, p) then [InteractionOf(p)] else []
    case None => []
  }

  /** The interactions the accepted records referring to `o` produce, in record order. */
  function AcceptedFor(recs: seq<Record>, parseInt: IntParser, parseReal: RealParser, o: Owner): seq<Interaction>
    decreases |recs|
  {
    if |recs| == 0 then [] else OwnedBy(recs[0], parseInt, parseReal, o) + AcceptedFor(recs[1..], parseInt, parseReal, o)
  }

  /** The interaction list of the content under `k`, empty when there is none. */
  function ContentHistory(t: Bst.Tree<C.Content>, k: int): seq<Interaction> {
    if k in Bst.Contents(t) then Bst.Contents(t)[k].tally.interactions else []
  }

  /** The interaction list of the user under `k`, empty when there is none. */
  function UserHistory(t: Bst.Tree<U.User>, k: int): seq<Interaction> {
    if k in Bst.Contents(t) then Bst.Contents(t)[k].tally.interactions else []
  }

  /** The interaction list of the platform named `n`, empty when there is none. */
  function PlatformHistory(m: map<string, P.Platform>, n: string): seq<Interaction> {
    if n in m then m[n].tally.interactions else []
  }

  lemma UpsertContentHistory(t: Bst.Tree<C.Content>, p: Parsed, k: int)
    requires Bst.IsBst(t)
    ensures ContentHistory(UpsertContent(t, p), k)
         == ContentHistory(t, k) + (if p.contentId == k then [InteractionOf(p)] else [])
  {
    var c0 := FindOrNewContent(t, p.contentId, p.contentName);
    Bst.InsertCorrect(t, p.contentId, C.RegisterInteraction(c0, InteractionOf(p)));
    if p.contentId != k {
      AppendNil(ContentHistory(t, k));
    } else if k !in Bst.Contents(t) {
      assert c0.tally.interactions == [];
    }
  }

  lemma UpsertUserHistory(t: Bst.Tree<U.User>, p: Parsed, k: int)
    requires Bst.IsBst(t)
    ensures UserHistory(UpsertUser(t, p), k)
         == UserHistory(t, k) + (if p.userId == k then [InteractionOf(p)] else [])
  {
    var u0 := FindOrNewUser(t, p.userId);
    Bst.InsertCorrect(t, p.userId, U.RegisterInteraction(u0, InteractionOf(p)));
    if p.userId != k {
      AppendNil(UserHistory(t, k));
    } else if k !in Bst.Contents(t) {
      assert u0.tally.interactions == [];
    }
  }

  lemma UpsertPlatformHistory(m: map<string, P.Platform>, p: Parsed, n: string)
    ensures PlatformHistory(UpsertPlatform(m, p), n)
         == PlatformHistory(m, n) + (if p.platform == n then [InteractionOf(p)] else [])
  {
    if p.platform != n {
      AppendNil(PlatformHistory(m, n));
    }
  }

  /** One record: the content's list gains exactly what the record files under it. */
  lemma StepContentHistory(e: Engine, rec: Record, parseInt: IntParser, parseReal: RealParser, k: int)
    requires Bst.IsBst(e.contents)
    ensures ContentHistory(Step(e, rec, parseInt, parseReal).contents, k)
         == ContentHistory(e.contents, k) + OwnedBy(rec, parseInt, parseReal, OfContent(k))
  {
    var parsed := Parse(rec, parseInt, parseReal);
    if parsed.None? {
      assert Step(e, rec, parseInt, parseReal) == e;
      AppendNil(ContentHistory(e.contents, k));
    } else {
      UpsertContentHistory(e.contents, parsed.value, k);
    }
  }



  lemma StepUserHistory(e: Engine, rec: Record, parseInt: IntParser, parseReal: RealParser, k: int)
    requires Bst.IsBst(e.users)
    ensures UserHistory(Step(e, rec, parseInt, parseReal).users, k)
         == UserHistory(e.users, k) + OwnedBy(rec, parseInt, parseReal, OfUser(k))
  {
    var parsed := Parse(rec, parseInt, parseReal);
    if parsed.None? {
      assert Step(e, rec, parseInt, parseReal) == e;
      AppendNil(UserHistory(e.users, k));
    } else {
      UpsertUserHistory(e.users, parsed.value, k);
    }
  }



  lemma StepPlatformHistory(e: Engine, rec: Record, parseInt: IntParser, parseReal: RealParser, k: string)
    ensures PlatformHistory(Step(e, rec, parseInt, parseReal).platforms, k)
         == PlatformHistory(e.platforms, k) + OwnedBy(rec, parseInt, parseReal, OfPlatform(k))
  {
    var parsed := Parse(rec, parseInt, parseReal);
    if parsed.None? {
      assert Step(e, rec, parseInt, parseReal) == e;
      AppendNil(PlatformHistory(e.platforms, k));
    } else {
      UpsertPlatformHistory(e.platforms, parsed.value, k);
    }
  }



  lemma AcceptedForCons(recs: seq<Record>, parseInt: IntParser, parseReal: RealParser, o: Owner)
    requires |recs| > 0
    ensures AcceptedFor(recs, parseInt, parseReal, o)
         == OwnedBy(recs[0], parseInt, parseReal, o) + AcceptedFor(recs[1..], parseInt, parseReal, o)
  {
  }

  /**
   * After processing, a content's interaction list is its old list followed by
   * the interactions of the accepted records naming it, in queue order.
   */
  lemma {:induction false} FoldContentHistory(e: Engine, recs: seq<Record>, parseInt: IntParser, parseReal: RealParser, k: int)
    requires WellFormed(e)
    ensures ContentHistory(Fold(e, recs, parseInt, parseReal).contents, k)
         == ContentHistory(e.contents, k) + AcceptedFor(recs, parseInt, parseReal, OfContent(k))
    decreases |recs|
  {
    if |recs| > 0 {
      var e' := Step(e, recs[0], parseInt, parseReal);
      StepContentHistory(e, recs[0], parseInt, parseReal, k);
      FoldContentHistory(e', recs[1..], parseInt, parseReal, k);
      AcceptedForCons(recs, parseInt, parseReal, OfContent(k));
      AppendAssoc(ContentHistory(e.contents, k), OwnedBy(recs[0], parseInt, parseReal, OfContent(k)),
        AcceptedFor(recs[1..], parseInt, parseReal, OfContent(k)));
    }
  }

  /** The same for a user: old list, then the accepted records naming the user, in queue order. */
  lemma {:induction false} FoldUserHistory(e: Engine, recs: seq<Record>, parseInt: IntParser, parseReal: RealParser, k: int)
    requires WellFormed(e)
    ensures UserHistory(Fold(e, recs, parseInt, parseReal).users, k)
         == UserHistory(e.users, k) + AcceptedFor(recs, parseInt, parseReal, OfUser(k))
    decreases |recs|
  {
    if |recs| > 0 {
      var e' := Step(e, recs[0], parseInt, parseReal);
      StepUserHistory(e, recs[0], parseInt, parseReal, k);
      FoldUserHistory(e', recs[1..], parseInt, parseReal, k);
      AcceptedForCons(recs, parseInt, parseReal, OfUser(k));
      AppendAssoc(UserHistory(e.users, k), OwnedBy(recs[0], parseInt, parseReal, OfUser(k)),
        AcceptedFor(recs[1..], parseInt, parseReal, OfUser(k)));
    }
  }

  /** The same for a platform: old list, then the accepted records naming the platform, in queue order. */
  lemma {:induction false} FoldPlatformHistory(e: Engine, recs: seq<Record>, parseInt: IntParser, parseReal: RealParser, n: string)
    requires WellFormed(e)
    ensures PlatformHistory(Fold(e, recs, parseInt, parseReal).platforms, n)
         == PlatformHistory(e.platforms, n) + AcceptedFor(recs, parseInt, parseReal, OfPlatform(n))
    decreases |recs|
  {
    if |recs| > 0 {
      var e' := Step(e, recs[0], parseInt, parseReal);
      StepPlatformHistory(e, recs[0], parseInt, parseReal, n);
      FoldPlatformHistory(e', recs[1..], parseInt, parseReal, n);
      AcceptedForCons(recs, parseInt, parseReal, OfPlatform(n));
      AppendAssoc(PlatformHistory(e.platforms, n), OwnedBy(recs[0], parseInt, parseReal, OfPlatform(n)),
        AcceptedFor(recs[1..], parseInt, parseReal, OfPlatform(n)));
    }
  }

  /**
   * `total_interacoes` after processing: every content, user and platform
   * counts its old interactions plus the accepted records that name it.
   */
  lemma FoldTotals(e: Engine, recs: seq<Record>, parseInt: IntParser, parseReal: RealParser, k: int, u: int, n: string)
    requires WellFormed(e)
    ensures k in Bst.Contents(Fold(e, recs, parseInt, parseReal).contents) ==>
      Bst.Contents(Fold(e, recs, parseInt, parseReal).contents)[k].tally.total
        == |ContentHistory(e.contents, k)| + |AcceptedFor(recs, parseInt, parseReal, OfContent(k))|
    ensures u in Bst.Contents(Fold(e, recs, parseInt, parseReal).users) ==>
      Bst.Contents(Fold(e, recs, parseInt, parseReal).users)[u].tally.total
        == |UserHistory(e.users, u)| + |AcceptedFor(recs, parseInt, parseReal, OfUser(u))|
    ensures n in Fold(e, recs, parseInt, parseReal).platforms ==>
      Fold(e, recs, parseInt, parseReal).platforms[n].tally.total
        == |PlatformHistory(e.platforms, n)| + |AcceptedFor(recs, parseInt, parseReal, OfPlatform(n))|
  {
    FoldContentHistory(e, recs, parseInt, parseReal, k);
    FoldUserHistory(e, recs, parseInt, parseReal, u);
    FoldPlatformHistory(e, recs, parseInt, parseReal, n);
  }

  /** The in-order listings have one entry per distinct id seen, never more. */
  lemma FoldListingLength(e: Engine, recs: seq<Record>, parseInt: IntParser, parseReal: RealParser)
    requires WellFormed(e)
    ensures |Bst.InOrder(Fold(e, recs, parseInt, parseReal).contents)|
         == |Bst.Keys(e.contents) + AcceptedContentIds(recs, parseInt, parseReal)|
    ensures |Bst.InOrder(Fold(e, recs, parseInt, parseReal).users)|
         == |Bst.Keys(e.users) + AcceptedUserIds(recs, parseInt, parseReal)|
  {
    var r := Fold(e, recs, parseInt, parseReal);
    FoldContentKeys(e, recs, parseInt, parseReal);
    FoldUserKeys(e, recs, parseInt, parseReal);
    Bst.SizeIsKeyCount(r.contents);
    Bst.SizeIsKeyCount(r.users);
  }

  /**
   * Draining a freshly loaded system: the queue ends empty and each index's
   * interaction count equals the number of accepted records.
   */
  lemma ProcessFromScratch(rows: seq<Record>, parseInt: IntParser, parseReal: RealParser)
    ensures Queue.IsEmpty(Process(Load(NewSystem(), rows), parseInt, parseReal).queue)
    ensures WellFormed(Process(Load(NewSystem(), rows), parseInt, parseReal).engine)
    ensures Bst.SumValues(Process(Load(NewSystem(), rows), parseInt, parseReal).engine.contents, ContentCount)
         == CountAccepted(rows, parseInt, parseReal)
    ensures Bst.SumValues(Process(Load(NewSystem(), rows), parseInt, parseReal).engine.users, UserCount)
         == CountAccepted(rows, parseInt, parseReal)
  {
    var s := Load(NewSystem(), rows);
    assert s.queue.items == rows;
    FoldConservesCounts(s.engine, rows, parseInt, parseReal);
  }

  // ---------------------------------------------------------------------------
  // Reports

  function ContentTime(c: C.Content): real {
    c.tally.totalTime
  }

  function UserActivity(u: U.User): real {
    u.tally.total as real
  }

  function PlatformTime(p: P.Platform): real {
    p.tally.totalTime
  }

  /** The registry's values in insertion order (names missing from the map are passed over). */
  function RegistryValues(m: map<string, P.Platform>, order: seq<string>): (ps: seq<P.Platform>)
    ensures AllIn(order, m) ==> |ps| == |order| && forall i :: 0 <= i < |ps| ==> ps[i] == m[order[i]]
  {
    if |order| == 0 then []
    else
      var rest := RegistryValues(m, order[1..]);
      if order[0] in m then [m[order[0]]] + rest else rest
  }

  /** Every content an enumeration of a well-kept index yields is the one stored under its id. */
  lemma StoredContents(t: Bst.Tree<C.Content>, vs: seq<C.Content>)
    requires ContentsOk(t)
    requires multiset(vs) <= multiset(Bst.InOrderValues(t))
    ensures forall c :: c in vs ==> c.id in Bst.Contents(t) && Bst.Contents(t)[c.id] == c
  {
    forall c | c in vs ensures c.id in Bst.Contents(t) && Bst.Contents(t)[c.id] == c {
      assert c in multiset(vs);
      assert c in multiset(Bst.InOrderValues(t));
      Bst.InOrderValueStored(t, c);
      var k :| k in Bst.Contents(t) && Bst.Contents(t)[k] == c;
      assert ContentOk(k, c);
    }
  }

  /** Every user an enumeration of a well-kept index yields is the one stored under its id. */
  lemma StoredUsers(t: Bst.Tree<U.User>, vs: seq<U.User>)
    requires UsersOk(t)
    requires multiset(vs) <= multiset(Bst.InOrderValues(t))
    ensures forall u :: u in vs ==> u.id in Bst.Contents(t) && Bst.Contents(t)[u.id] == u
  {
    forall u | u in vs ensures u.id in Bst.Contents(t) && Bst.Contents(t)[u.id] == u {
      assert u in multiset(vs);
      assert u in multiset(Bst.InOrderValues(t));
      Bst.InOrderValueStored(t, u);
      var k :| k in Bst.Contents(t) && Bst.Contents(t)[k] == u;
      assert UserOk(k, u);
    }
  }

  /**
   * `gerar_top_conteudos_por_tempo`: the contents in in-order, stably sorted by
   * watch time, highest first, then cut to `n` unless `n` is None or 0.
   */
  function TopContentsByTime(e: Engine, n: Option<int>): (r: seq<C.Content>)
    ensures Ranking.SortedDesc(r, ContentTime)
    ensures r <= Ranking.SortDesc(Bst.InOrderValues(e.contents), ContentTime)
    ensures n.None? || n == Some(0) ==> multiset(r) == multiset(Bst.InOrderValues(e.contents))
    ensures n.Some? && n.value > 0 ==> |r| == if n.value < Bst.Size(e.contents) then n.value else Bst.Size(e.contents)
    ensures ContentsOk(e.contents) ==> forall c :: c in r ==> c.id in Bst.Contents(e.contents) && Bst.Contents(e.contents)[c.id] == c
  {
    var r := Ranking.Rank(Bst.InOrderValues(e.contents), ContentTime, n);
    assert ContentsOk(e.contents) ==> forall c :: c in r ==> c.id in Bst.Contents(e.contents) && Bst.Contents(e.contents)[c.id] == c by {
      if ContentsOk(e.contents) { StoredContents(e.contents, r); }
    }
    r
  }

  /**
   * `gerar_top_usuarios_por_interacoes`: the users in in-order, stably sorted
   * by interaction count, highest first, then cut to `n` unless `n` is None or 0.
   */
  function TopUsersByInteractions(e: Engine, n: Option<int>): (r: seq<U.User>)
    ensures Ranking.SortedDesc(r, UserActivity)
    ensures r <= Ranking.SortDesc(Bst.InOrderValues(e.users), UserActivity)
    ensures n.None? || n == Some(0) ==> multiset(r) == multiset(Bst.InOrderValues(e.users))
    ensures n.Some? && n.value > 0 ==> |r| == if n.value < Bst.Size(e.users) then n.value else Bst.Size(e.users)
    ensures UsersOk(e.users) ==> forall u :: u in r ==> u.id in Bst.Contents(e.users) && Bst.Contents(e.users)[u.id] == u
  {
    var r := Ranking.Rank(Bst.InOrderValues(e.users), UserActivity, n);
    assert UsersOk(e.users) ==> forall u :: u in r ==> u.id in Bst.Contents(e.users) && Bst.Contents(e.users)[u.id] == u by {
      if UsersOk(e.users) { StoredUsers(e.users, r); }
    }
    r
  }

  /**
   * `gerar_tempo_total_por_plataforma`: the platforms in registry order, stably
   * sorted by watch time, highest first, then cut to `n` unless `n` is None or 0.
   */
  function PlatformsByTime(e: Engine, n: Option<int>): (r: seq<P.Platform>)
    ensures Ranking.SortedDesc(r, PlatformTime)
    ensures r <= Ranking.SortDesc(RegistryValues(e.platforms, e.platformOrder), PlatformTime)
    ensures n.None? || n == Some(0) ==> multiset(r) == multiset(RegistryValues(e.platforms, e.platformOrder))
    ensures RegistryOk(e.platforms, e.platformOrder) ==> forall p :: p in r ==> p.name in e.platforms && e.platforms[p.name] == p
  {
    var all := RegistryValues(e.platforms, e.platformOrder);
    var r := Ranking.Rank(all, PlatformTime, n);
    assert RegistryOk(e.platforms, e.platformOrder) ==> forall p :: p in r ==> p.name in e.platforms && e.platforms[p.name] == p by {
      if RegistryOk(e.platforms, e.platformOrder) {
        forall p | p in r ensures p.name in e.platforms && e.platforms[p.name] == p {
          assert p in multiset(r);
          assert p in all;
          var i :| 0 <= i < |all| && all[i] == p;
          assert PlatformOk(e.platformOrder[i], all[i]);
        }
      }
    }
    r
  }

  /** With no input, every index stays empty and every report is empty. */
  lemma EmptyInputEmptyReports(parseInt: IntParser, parseReal: RealParser, n: Option<int>)
    ensures Process(NewSystem(), parseInt, parseReal) == NewSystem()
    ensures TopContentsByTime(NewSystem().engine, n) == []
    ensures TopUsersByInteractions(NewSystem().engine, n) == []
    ensures PlatformsByTime(NewSystem().engine, n) == []
  {
  }
}
