/**
 * The metric accumulator shared by content, user and platform: the list of
 * registered interactions plus two running totals, and the queries that
 * recompute figures from the list.
 */
module Metrics {
  import opened Wrappers
  import opened Collections
  import opened Interactions

  /** `totalTime` and `total` are the cached `tempo_total_consumo` and `total_interacoes`. */
  datatype Tally = Tally(interactions: seq<Interaction>, totalTime: real, total: nat)

  predicate IsView(i: Interaction) {
    i.kind == Some(ViewStart)
  }

  predicate IsEngagement(i: Interaction) {
    i.kind == Some(Like) || i.kind == Some(Share) || i.kind == Some(Comment)
  }

  /** Sum of the durations of the view_start interactions. */
  function ViewTime(s: seq<Interaction>): real {
    if |s| == 0 then 0.0
    else ViewTime(s[..|s| - 1]) + (if IsView(s[|s| - 1]) then s[|s| - 1].duration else 0.0)
  }

  /** Number of interactions whose type is `k`. */
  function CountKind(s: seq<Interaction>, k: Option<string>): (n: nat)
    ensures n <= |s|
  {
    if |s| == 0 then 0
    else CountKind(s[..|s| - 1], k) + (if s[|s| - 1].kind == k then 1 else 0)
  }

  /** The cached totals agree with the interaction list. */
  predicate Valid(t: Tally) {
    t.total == |t.interactions| && t.totalTime == ViewTime(t.interactions)
  }

  /** The state of a freshly constructed entity. */
  function Fresh(): (t: Tally)
    ensures Valid(t) && |t.interactions| == 0
  {
    Tally([], 0.0, 0)
  }

  /** `registrar_interacao`: append, count it, and add its duration when it is a view_start. */
  function Register(t: Tally, i: Interaction): (r: Tally)
    ensures r.interactions == t.interactions + [i]
    ensures Valid(t) ==> Valid(r)
  {
    Tally(t.interactions + [i], if IsView(i) then t.totalTime + i.duration else t.totalTime, t.total + 1)
  }

  /** Number of like, share and comment interactions. */
  function EngagementCount(s: seq<Interaction>): (n: nat)
    ensures n <= |s|
  {
    if |s| == 0 then 0
    else EngagementCount(s[..|s| - 1]) + (if IsEngagement(s[|s| - 1]) then 1 else 0)
  }

  /** The engagement count is the like, share and comment counts added up. */
  lemma {:induction false} EngagementIsSumOfKinds(s: seq<Interaction>)
    ensures EngagementCount(s)
         == CountKind(s, Some(Like)) + CountKind(s, Some(Share)) + CountKind(s, Some(Comment))
  {
    if |s| > 0 {
      EngagementIsSumOfKinds(s[..|s| - 1]);
    }
  }

  /** Mean view_start duration, 0 when there is no view_start. */
  function Average(t: Tally): (r: real)
    ensures CountKind(t.interactions, Some(ViewStart)) == 0 ==> r == 0.0
    ensures Valid(t) && CountKind(t.interactions, Some(ViewStart)) > 0 ==>
      r * (CountKind(t.interactions, Some(ViewStart)) as real) == ViewTime(t.interactions)
  {
    var views := CountKind(t.interactions, Some(ViewStart));
    if views > 0 then t.totalTime / (views as real) else 0.0
  }

  /** Per-type counts, built by one pass that bumps the entry of each interaction's type. */
  function CountsByType(s: seq<Interaction>): (m: map<Option<string>, nat>)
    ensures forall k :: k in m <==> CountKind(s, k) > 0
    ensures forall k :: k in m ==> m[k] == CountKind(s, k)
  {
    if |s| == 0 then map[]
    else
      var m := CountsByType(s[..|s| - 1]);
      var k := s[|s| - 1].kind;
      m[k := (if k in m then m[k] else 0) + 1]
  }

  /** The types in order of first occurrence: the key order of the source's dictionary. */
  function FirstSeen(s: seq<Interaction>): (ks: seq<Option<string>>)
    ensures Distinct(ks)
    ensures forall k :: k in ks <==> CountKind(s, k) > 0
  {
    if |s| == 0 then []
    else
      var ks := FirstSeen(s[..|s| - 1]);
      var k := s[|s| - 1].kind;
      if k in ks then ks else ks + [k]
  }

  function AsInt(n: nat): int {
    n
  }

  /** The per-type counts add up to the number of interactions. */
  lemma {:induction false} CountsSumToLength(s: seq<Interaction>)
    ensures AllIn(FirstSeen(s), CountsByType(s))
    ensures SumOver(FirstSeen(s), CountsByType(s), AsInt) == |s|
  {
    if |s| > 0 {
      var init := s[..|s| - 1];
      var k := s[|s| - 1].kind;
      var m := CountsByType(init);
      var ks := FirstSeen(init);
      CountsSumToLength(init);
      if k in ks {
        SumOverUpdatePresent(ks, m, AsInt, k, m[k] + 1);
      } else {
        SumOverUpdateAbsent(ks, m, AsInt, k, 1);
        assert (ks + [k])[..|ks + [k]| - 1] == ks;
      }
    }
  }

  /** Texts of comment interactions that carry a non-empty text, in registration order. */
  function Comments(s: seq<Interaction>): (cs: seq<string>)
    ensures |cs| <= CountKind(s, Some(Comment))
    ensures forall c :: c in cs ==> c != ""
  {
    if |s| == 0 then []
    else
      var i := s[|s| - 1];
      Comments(s[..|s| - 1])
        + (if i.kind == Some(Comment) && i.comment.Some? && i.comment.value != "" then [i.comment.value] else [])
  }

  /** Comments of a concatenation are the comments of each part, in order. */
  lemma {:induction false} CommentsAppend(a: seq<Interaction>, b: seq<Interaction>)
    ensures Comments(a + b) == Comments(a) + Comments(b)
    decreases |b|
  {
    if |b| > 0 {
      assert (a + b)[..|a + b| - 1] == a + b[..|b| - 1];
      CommentsAppend(a, b[..|b| - 1]);
    } else {
      assert a + b == a;
    }
  }
}
