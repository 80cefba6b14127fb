/** A platform (`Plataforma`), identified by its name, and its metrics. */
module PlatformEntity {
  import opened Wrappers
  import opened Collections
  import opened Interactions
  import opened Metrics

  datatype Platform = Platform(name: string, tally: Tally)

  /** The constructor: the given name, no interactions and zero totals. */
  function NewPlatform(name: string): (p: Platform)
    ensures p.name == name
    ensures Valid(p.tally) && p.tally.interactions == [] && p.tally.total == 0 && p.tally.totalTime == 0.0
  {
    Platform(name, Fresh())
  }

  /** `registrar_interacao`: the interaction goes at the end; the name is kept. */
  function RegisterInteraction(p: Platform, i: Interaction): (r: Platform)
    ensures r.name == p.name
    ensures r.tally.interactions == p.tally.interactions + [i]
    ensures Valid(p.tally) ==> Valid(r.tally)
    ensures Valid(p.tally) ==> r.tally.total == p.tally.total + 1
  {
    p.(tally := Register(p.tally, i))
  }

  /** Likes, shares and comments: at most the total number of interactions. */
  function EngagementTotal(p: Platform): (n: nat)
    ensures Valid(p.tally) ==> n <= p.tally.total
    ensures n == CountKind(p.tally.interactions, Some(Like))
               + CountKind(p.tally.interactions, Some(Share))
               + CountKind(p.tally.interactions, Some(Comment))
  {
    EngagementIsSumOfKinds(p.tally.interactions);
    EngagementCount(p.tally.interactions)
  }

  /** Count per interaction type; the counts add up to the total number of interactions. */
  function CountsPerType(p: Platform): (m: map<Option<string>, nat>)
    ensures forall k :: k in m ==> m[k] == CountKind(p.tally.interactions, k)
    ensures AllIn(FirstSeen(p.tally.interactions), m)
    ensures Valid(p.tally) ==> SumOver(FirstSeen(p.tally.interactions), m, AsInt) == p.tally.total
  {
    CountsSumToLength(p.tally.interactions);
    CountsByType(p.tally.interactions)
  }
}
