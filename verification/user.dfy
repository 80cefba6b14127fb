/** A user (`Usuario`) and its metrics. */
module UserEntity {
  import opened Wrappers
  import opened Collections
  import opened Interactions
  import opened Metrics

  datatype User = User(id: int, tally: Tally)

  /** The constructor: no interactions and zero totals. */
  function NewUser(id: int): (u: User)
    ensures u.id == id
    ensures Valid(u.tally) && u.tally.interactions == [] && u.tally.total == 0 && u.tally.totalTime == 0.0
  {
    User(id, Fresh())
  }

  /** `registrar_interacao`: the interaction goes at the end; the id is kept. */
  function RegisterInteraction(u: User, i: Interaction): (r: User)
    ensures r.id == u.id
    ensures r.tally.interactions == u.tally.interactions + [i]
    ensures Valid(u.tally) ==> Valid(r.tally)
    ensures Valid(u.tally) ==> r.tally.total == u.tally.total + 1
  {
    u.(tally := Register(u.tally, i))
  }

  /** Likes, shares and comments: at most the total number of interactions. */
  function EngagementTotal(u: User): (n: nat)
    ensures Valid(u.tally) ==> n <= u.tally.total
    ensures n == CountKind(u.tally.interactions, Some(Like))
               + CountKind(u.tally.interactions, Some(Share))
               + CountKind(u.tally.interactions, Some(Comment))
  {
    EngagementIsSumOfKinds(u.tally.interactions);
    EngagementCount(u.tally.interactions)
  }

  /** Count per interaction type; the counts add up to the total number of interactions. */
  function CountsPerType(u: User): (m: map<Option<string>, nat>)
    ensures forall k :: k in m ==> m[k] == CountKind(u.tally.interactions, k)
    ensures AllIn(FirstSeen(u.tally.interactions), m)
    ensures Valid(u.tally) ==> SumOver(FirstSeen(u.tally.interactions), m, AsInt) == u.tally.total
  {
    CountsSumToLength(u.tally.interactions);
    CountsByType(u.tally.interactions)
  }
}
