/** A content item (`Conteudo`) and its metrics. */
module ContentEntity {
  import opened Wrappers
  import opened Collections
  import opened Interactions
  import opened Metrics

  datatype Content = Content(id: int, name: string, tally: Tally)

  /** Decimal digits of a natural number, most significant first. */
  function NatDigits(n: nat): (s: string)
    ensures |s| > 0
    ensures forall i :: 0 <= i < |s| ==> '0' <= s[i] <= '9'
    decreases n
  {
    var d := ['0' + ((n % 10) as char)];
    if n < 10 then d else NatDigits(n / 10) + d
  }

  /** Python's `str` of an integer: an optional minus sign, then the digits. */
  function DecimalString(n: int): (s: string)
    ensures |s| > 0
    ensures s[0] == '-' <==> n < 0
    ensures forall i :: (n < 0 ==> 1 <= i) && 0 <= i < |s| ==> '0' <= s[i] <= '9'
  {
    if n < 0 then "-" + NatDigits(-n) else NatDigits(n)
  }

  /** The number a string of decimal digits denotes, most significant first. */
  function DigitsValue(s: string): nat
  {
    if |s| == 0 then 0
    else
      var d := s[|s| - 1] as int - '0' as int;
      DigitsValue(s[..|s| - 1]) * 10 + (if 0 <= d then d else 0)
  }

  /** The number a decimal string with an optional minus sign denotes (Python's `int`). */
  function DecimalValue(s: string): int
  {
    if |s| > 0 && s[0] == '-' then 0 - DigitsValue(s[1..]) else DigitsValue(s)
  }

  /** Reading the digits back gives the number they were written from. */
  lemma {:induction false} NatDigitsValue(n: nat)
    ensures DigitsValue(NatDigits(n)) == n
    decreases n
  {
    var d := ['0' + ((n % 10) as char)];
    assert DigitsValue(d) == n % 10 by {
      assert d[..0] == [];
    }
    if n >= 10 {
      var s := NatDigits(n / 10) + d;
      assert s[..|s| - 1] == NatDigits(n / 10);
      NatDigitsValue(n / 10);
    }
  }

  /** `int(str(n)) == n`: the decimal string names its integer. */
  lemma DecimalRoundTrip(n: int)
    ensures DecimalValue(DecimalString(n)) == n
  {
    if n < 0 {
      assert ("-" + NatDigits(-n))[1..] == NatDigits(-n);
      NatDigitsValue(-n);
    } else {
      NatDigitsValue(n);
    }
  }

  /** The label a content gets when no name is given. */
  function DefaultName(id: int): (s: string)
    ensures |s| > |"conteudo_"| && s[..|"conteudo_"|] == "conteudo_"
  {
    "conteudo_" + DecimalString(id)
  }

  /** The part after the prefix reads back as the id. */
  lemma DefaultNameValue(id: int)
    ensures DecimalValue(DefaultName(id)[|"conteudo_"|..]) == id
  {
    assert DefaultName(id)[|"conteudo_"|..] == DecimalString(id);
    DecimalRoundTrip(id);
  }

  /** Distinct ids never share a default label. */
  lemma DefaultNameInjective(a: int, b: int)
    ensures DefaultName(a) == DefaultName(b) ==> a == b
  {
    DefaultNameValue(a);
    DefaultNameValue(b);
  }

  /** The constructor: the name falls back to the default label when it is absent or empty. */
  function NewContent(id: int, name: Option<string>): (c: Content)
    ensures c.id == id
    ensures name.Some? && name.value != "" ==> c.name == name.value
    ensures name.None? || name.value == "" ==> c.name == DefaultName(id)
    ensures c.name != ""
    ensures Valid(c.tally) && c.tally.interactions == [] && c.tally.total == 0 && c.tally.totalTime == 0.0
  {
    Content(id, if name.Some? && name.value != "" then name.value else DefaultName(id), Fresh())
  }

  /** `registrar_interacao`: the interaction goes at the end; id and name are kept. */
  function RegisterInteraction(c: Content, i: Interaction): (r: Content)
    ensures r.id == c.id && r.name == c.name
    ensures r.tally.interactions == c.tally.interactions + [i]
    ensures Valid(c.tally) ==> Valid(r.tally)
    ensures Valid(c.tally) ==> r.tally.total == c.tally.total + 1
  {
    c.(tally := Register(c.tally, i))
  }

  /** Likes, shares and comments: at most the total number of interactions. */
  function EngagementTotal(c: Content): (n: nat)
    ensures Valid(c.tally) ==> n <= c.tally.total
    ensures n == CountKind(c.tally.interactions, Some(Like))
               + CountKind(c.tally.interactions, Some(Share))
               + CountKind(c.tally.interactions, Some(Comment))
  {
    EngagementIsSumOfKinds(c.tally.interactions);
    EngagementCount(c.tally.interactions)
  }

  /** Count per interaction type; the counts add up to the total number of interactions. */
  function CountsPerType(c: Content): (m: map<Option<string>, nat>)
    ensures forall k :: k in m ==> m[k] == CountKind(c.tally.interactions, k)
    ensures AllIn(FirstSeen(c.tally.interactions), m)
    ensures Valid(c.tally) ==> SumOver(FirstSeen(c.tally.interactions), m, AsInt) == c.tally.total
  {
    CountsSumToLength(c.tally.interactions);
    CountsByType(c.tally.interactions)
  }

  /** Mean watch time over view_start interactions; 0 when there are none. */
  function AverageTime(c: Content): (r: real)
    ensures CountKind(c.tally.interactions, Some(ViewStart)) == 0 ==> r == 0.0
    ensures Valid(c.tally) && CountKind(c.tally.interactions, Some(ViewStart)) > 0 ==>
      r * (CountKind(c.tally.interactions, Some(ViewStart)) as real) == c.tally.totalTime
  {
    Average(c.tally)
  }

  /** Non-empty comment texts of comment interactions, oldest first. */
  function CommentList(c: Content): (cs: seq<string>)
    ensures |cs| <= CountKind(c.tally.interactions, Some(Comment))
    ensures forall s :: s in cs ==> s != ""
  {
    Comments(c.tally.interactions)
  }

  /** Registering appends at most the new interaction's text to the comment list. */
  lemma CommentListAfterRegister(c: Content, i: Interaction)
    ensures CommentList(RegisterInteraction(c, i))
         == CommentList(c)
          + (if i.kind == Some(Comment) && i.comment.Some? && i.comment.value != "" then [i.comment.value] else [])
  {
    CommentsAppend(c.tally.interactions, [i]);
  }
}
