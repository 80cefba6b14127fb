# Engagement analysis core, modelled in Dafny

This project models the ingestion-and-indexing engine of the Globotech
engagement-analysis system. Raw interaction records are staged in a FIFO
queue (`Fila`). Processing (`processar_interacoes_da_fila`) drains the queue
and skips malformed records. For each remaining record it finds or creates a
content and a user, each kept in an unbalanced binary search tree keyed by
integer id (`ArvoreBinariaBusca`), and a platform kept in a name-keyed
registry. One interaction (`Interacao`) is then registered with each of the
three entities (`Conteudo`, `Usuario`, `Plataforma`). Every entity keeps
running totals beside its interaction list. Three reports rank the entities
by one metric each.

Everything is functional. The tree is a recursive datatype whose insert and
remove return the new subtree root. The queue is a sequence. The metric state
is an immutable `Tally`. The processing loop is a fold of one step per record
over an `Engine` that holds the two trees and the registry.

Modules, one per file:

- `Wrappers` (wrappers.dfy): `Option`.
- `Collections` (collections.dfy): distinctness and a keyed sum.
- `Queue` (queue.dfy): `Fila`.
- `Bst` (bst.dfy): `ArvoreBinariaBusca`.
- `Interactions` (interaction.dfy): `Interacao`.
- `Metrics` (metrics.dfy): the accumulator and the queries shared by the three entities.
- `ContentEntity`, `UserEntity`, `PlatformEntity` (content.dfy, user.dfy, platform.dfy): the three entities.
- `Ranking` (ranking.dfy): stable descending sort and Python's `[:n]` cut.
- `Engagement` (system.dfy): `SistemaAnaliseEngajamento`.
- `EngagementExample` (example.dfy): a three-record worked example.

The platform registry is a Python dict, which iterates in insertion order,
and the platform report enumerates it with `list(...values())`. The model
keeps that order in `Engine.platformOrder`, so ties in the platform report
keep first-registration order.

## Model

| member | source | states |
|---|---|---|
| Queue.Empty | estruturas_dados/fila.py:13-15 | a new queue holds no items |
| Queue.IsEmpty | estruturas_dados/fila.py:27-29 | the queue is empty exactly when its length is 0 |
| Queue.Enqueue | estruturas_dados/fila.py:17-19 | the item goes at the tail: length + 1, the old items are the prefix, the new item is last |
| Queue.Dequeue | estruturas_dados/fila.py:21-25 | on an empty queue there is no result (the source raises IndexError); otherwise it returns the head, and head followed by the remainder is the old contents, with length - 1 |
| Queue.EnqueueAllAppends | estruturas_dados/fila.py:17-19 | enqueueing a sequence appends it to the contents in order |
| Queue.DrainAllYieldsItems | estruturas_dados/fila.py:21-29 | dequeueing until empty yields the contents front to back |
| Queue.LengthIsDrainCount | estruturas_dados/fila.py:31-33 | `len` of the queue is the number of items a full drain hands out |
| Queue.Fifo | estruturas_dados/fila.py:5 | items enqueued into an empty queue come out in the order they went in |
| Bst.Contents | estruturas_dados/arvore_binaria_busca.py:1-8 | the key set of the represented map is exactly the tree's key set |
| Bst.Insert | estruturas_dados/arvore_binaria_busca.py:22-36 | the key set becomes old ∪ {k}, and the ordering invariant is kept |
| Bst.InsertCorrect | estruturas_dados/arvore_binaria_busca.py:26-36 | on a search tree the map becomes old[k := v]: k now maps to v and every other key keeps its value |
| Bst.InsertSize | estruturas_dados/arvore_binaria_busca.py:26-36 | a node is added only when k was absent; an existing key is updated in place |
| Bst.Search | estruturas_dados/arvore_binaria_busca.py:38-48 | on a search tree: None exactly when the key is absent, otherwise the value stored under it |
| Bst.MinEntry | estruturas_dados/arvore_binaria_busca.py:74-79 | the leftmost entry of a non-empty subtree holds its smallest key, together with that key's value |
| Bst.Remove | estruturas_dados/arvore_binaria_busca.py:50-72 | removing an absent key returns the tree unchanged; no key is ever added |
| Bst.RemoveCorrect | estruturas_dados/arvore_binaria_busca.py:54-72 | on a search tree removal keeps the ordering invariant, the key set becomes old \ {k}, and every other key keeps its value, including across the two-child successor swap |
| Bst.InOrder | estruturas_dados/arvore_binaria_busca.py:81-91 | one pair per node, every key from the tree, and keys strictly ascending on a search tree |
| Bst.InOrderMatchesContents | estruturas_dados/arvore_binaria_busca.py:81-91 | the in-order pairs are exactly the tree's (key, value) entries |
| Bst.InsertExistingKeepsLength | estruturas_dados/arvore_binaria_busca.py:33-35 | re-inserting a present key leaves the in-order listing the same length |
| Bst.SearchAfterInsert | estruturas_dados/arvore_binaria_busca.py:22-48 | after insert(k, v), search(k) returns v |
| Bst.SearchAfterRemove | estruturas_dados/arvore_binaria_busca.py:50-72 | after remove(k), search(k) returns None |
| Bst.SumValuesInsert | estruturas_dados/arvore_binaria_busca.py:26-36 | a sum over the stored values changes by the new value minus the value it replaces, if any |
| Bst.InOrderValueStored | estruturas_dados/arvore_binaria_busca.py:81-91 | every value in the in-order listing is stored under some key |
| Bst.InOrderValues | analise/sistema.py:85 | the values of the in-order listing, one per pair, position by position |
| Bst.SizeIsKeyCount | estruturas_dados/arvore_binaria_busca.py:26-36 | a search tree has one node per distinct key |
| Collections.SumOverUpdateAbsent | analise/sistema.py:50-53 | changing a map at a key outside the listed keys leaves their sum unchanged |
| Collections.SumOverUpdatePresent | analise/sistema.py:50-53 | changing a map at a key listed once moves the sum by the difference of the two values |
| Interactions.NewInteraction | entidades/interacao.py:13-27 | user, content, platform, type, duration and comment are stored as given, and the type is not checked against any vocabulary |
| Interactions.NewInteractionDefaults | entidades/interacao.py:19-20 | an omitted duration is 0 and an omitted comment is None |
| Metrics.CountKind | entidades/conteudo.py:38-43 | the count of one type is at most the number of interactions |
| Metrics.Fresh | entidades/conteudo.py:23-25 | a new accumulator is empty and its cached totals agree with its list |
| Metrics.Register | entidades/conteudo.py:27-32 | the interaction is appended, and the cached count and view_start time stay equal to those recomputed from the list |
| Metrics.EngagementCount | entidades/conteudo.py:34-36 | like + share + comment count is at most the number of interactions |
| Metrics.EngagementIsSumOfKinds | entidades/conteudo.py:34-36 | the engagement count is the like count plus the share count plus the comment count |
| Metrics.Average | entidades/conteudo.py:45-48 | 0 when there is no view_start; otherwise the average times the number of views is the total view_start time |
| Metrics.CountsByType | entidades/conteudo.py:38-43 | a type is a key exactly when it occurs, and its entry is its number of occurrences |
| Metrics.FirstSeen | entidades/conteudo.py:38-43 | the dictionary's key order lists each occurring type exactly once |
| Metrics.CountsSumToLength | entidades/conteudo.py:38-43 | the per-type counts add up to the number of interactions |
| Metrics.Comments | entidades/conteudo.py:50-52 | no more texts than comment interactions, and none empty |
| Metrics.CommentsAppend | entidades/conteudo.py:50-52 | the comments of a concatenation are those of each part, in registration order |
| ContentEntity.DecimalString | entidades/conteudo.py:22 | a non-empty string with a leading minus exactly for negative ids, and decimal digits everywhere else |
| ContentEntity.NatDigitsValue | entidades/conteudo.py:22 | the digits of a natural number read back as that number |
| ContentEntity.DecimalRoundTrip | entidades/conteudo.py:22 | `int(str(n)) == n`: the decimal string of an id reads back as the id, sign included |
| ContentEntity.DefaultName | entidades/conteudo.py:22 | the default label starts with "conteudo_" |
| ContentEntity.DefaultNameValue | entidades/conteudo.py:22 | the part of the default label after "conteudo_" reads back as the id |
| ContentEntity.DefaultNameInjective | entidades/conteudo.py:22 | two ids with the same default label are the same id |
| ContentEntity.NewContent | entidades/conteudo.py:20-25 | the id is stored; a present non-empty name is kept, otherwise the default label is used; the name is never empty; no interactions, total 0, time 0 |
| ContentEntity.RegisterInteraction | entidades/conteudo.py:27-32 | the interaction is appended, id and name are kept, the total grows by one and the totals stay consistent |
| ContentEntity.EngagementTotal | entidades/conteudo.py:34-36 | likes + shares + comments, at most the total number of interactions |
| ContentEntity.CountsPerType | entidades/conteudo.py:38-43 | each entry is that type's count, and the counts sum to the total number of interactions |
| ContentEntity.AverageTime | entidades/conteudo.py:45-48 | 0 without views; otherwise the total view time divided by the number of views |
| ContentEntity.CommentList | entidades/conteudo.py:50-52 | non-empty comment texts, no more than the comment interactions |
| ContentEntity.CommentListAfterRegister | entidades/conteudo.py:27-32 | registering appends the new interaction's text exactly when it is a comment with a non-empty text |
| UserEntity.NewUser | entidades/usuario.py:15-19 | the id is stored; no interactions, total 0, time 0 |
| UserEntity.RegisterInteraction | entidades/usuario.py:21-26 | the interaction is appended, the id is kept, the total grows by one and the totals stay consistent |
| UserEntity.EngagementTotal | entidades/usuario.py:28-30 | likes + shares + comments, at most the total number of interactions |
| UserEntity.CountsPerType | entidades/usuario.py:32-37 | each entry is that type's count, and the counts sum to the total number of interactions |
| PlatformEntity.NewPlatform | entidades/plataforma.py:15-19 | the name is stored; no interactions, total 0, time 0 |
| PlatformEntity.RegisterInteraction | entidades/plataforma.py:21-26 | the interaction is appended, the name is kept, the total grows by one and the totals stay consistent |
| PlatformEntity.EngagementTotal | entidades/plataforma.py:28-30 | likes + shares + comments, at most the total number of interactions |
| PlatformEntity.CountsPerType | entidades/plataforma.py:32-37 | each entry is that type's count, and the counts sum to the total number of interactions |
| Ranking.InsertDesc | analise/sistema.py:86 | inserting into a descending list keeps it descending and adds exactly the element |
| Ranking.InsertDescStable | analise/sistema.py:86 | the inserted element goes ahead of the elements whose metric equals its own, and their order is kept |
| Ranking.SortDesc | analise/sistema.py:86 | a permutation of the input, metric non-increasing, and elements with equal metrics in their input order (stability) |
| Ranking.Truncate | analise/sistema.py:87 | `s[:n] if n else s`: always a prefix; everything for None or 0; min(n, length) items for positive n; length + n items for negative n |
| Ranking.Rank | analise/sistema.py:86-87 | a descending prefix of the stable sort; a sub-multiset of the input, and the whole multiset when n is None or 0; min(n, length) items for positive n |
| Ranking.TopIsStrictMaximum | analise/sistema.py:86-87 | an element whose metric beats every other element's is the whole top-1 |
| Engagement.NewSystem | analise/sistema.py:18-22 | empty queue, empty trees and empty registry, all well formed |
| Engagement.ParseDuration | analise/sistema.py:70-73 | a missing or empty field gives 0.0, an unparsable one gives 0.0, otherwise the parsed value |
| Engagement.ParseAccepts | analise/sistema.py:35-73 | a record is accepted exactly when both ids are present, non-empty and integers and the platform is present and non-empty; then the ids and platform are the parsed ones, the content name is the given one or, when absent or empty, the default label of the id, and the duration is the parsed one |
| Engagement.FindOrNewPlatform | analise/sistema.py:50-53 | the registered platform when the name is known, otherwise a new one with that name; either way a well-kept platform of that name |
| Engagement.FindOrNewContent | analise/sistema.py:56-59 | on a search tree, the stored content when the id is indexed, otherwise a new content with the record's name; on a well-kept index, a well-kept content with that id |
| Engagement.FindOrNewUser | analise/sistema.py:62-65 | on a search tree, the stored user when the id is indexed, otherwise a new user; on a well-kept index, a well-kept user with that id |
| Engagement.UpsertContent | analise/sistema.py:56-59 | the content tree gains at most the record's content id |
| Engagement.UpsertUser | analise/sistema.py:62-65 | the user tree gains at most the record's user id |
| Engagement.UpsertPlatform | analise/sistema.py:50-53 | the registry gains at most the record's platform name |
| Engagement.Ingest | analise/sistema.py:50-80 | an accepted record adds its content id, user id and platform name to the indexes and nothing else |
| Engagement.Step | analise/sistema.py:34-80 | one iteration of the loop keeps the engine well formed: search trees whose nodes hold the entity with that id, consistent totals, every interaction filed under its own ids |
| Engagement.IngestKeepsWellFormed | analise/sistema.py:50-80 | ingesting an accepted record keeps the engine well formed |
| Engagement.RegisterContentOk | analise/sistema.py:75-78 | registering an interaction filed under the content's own id keeps its totals consistent |
| Engagement.UpsertContentEffect | analise/sistema.py:56-59 | the record's content gains exactly the new interaction; an existing content keeps its name; a new one gets the record's name or the default; other contents are untouched |
| Engagement.RegisterUserOk | analise/sistema.py:75-79 | registering an interaction filed under the user's own id keeps its totals consistent |
| Engagement.UpsertUserEffect | analise/sistema.py:62-65 | the record's user gains exactly the new interaction; other users are untouched |
| Engagement.RegisterPlatformOk | analise/sistema.py:75-80 | registering an interaction filed under the platform's own name keeps its totals consistent |
| Engagement.UpsertPlatformEffect | analise/sistema.py:50-53 | the record's platform gains exactly the new interaction; a new name goes to the end of the registry order; other platforms are untouched |
| Engagement.Fold | analise/sistema.py:33-80 | processing a sequence of records keeps the engine well formed |
| Engagement.Process | analise/sistema.py:31-34 | processing ends with the queue empty, having handled the queued records front to back |
| Engagement.Load | analise/sistema.py:24-29 | loaded rows are enqueued after the waiting ones, in order, and the indexes are untouched |
| Engagement.ClearQueue | analise/sistema.py:105-108 | clearing leaves the queue size 0 and the indexes untouched |
| Engagement.QueueIsEmpty | analise/sistema.py:110-111 | empty exactly when the queue size is 0 |
| Engagement.QueueSize | analise/sistema.py:113-114 | the number of records still waiting |
| Engagement.SkipMissingId | analise/sistema.py:35-38 | a record with a missing or empty content or user id changes nothing |
| Engagement.SkipUnparsableId | analise/sistema.py:39-43 | a record whose ids do not parse as integers changes nothing |
| Engagement.SkipMissingPlatform | analise/sistema.py:47-49 | a record with a missing or empty platform changes nothing, even with valid ids |
| Engagement.AcceptWellFormedRecord | analise/sistema.py:35-75 | a record with parsable ids and a platform is accepted with exactly those ids, that platform, and its type and comment fields |
| Engagement.DurationNeverSkips | analise/sistema.py:70-73 | setting or removing the duration field never changes whether a record is accepted |
| Engagement.CountAccepted | analise/sistema.py:33-49 | no more records are accepted than were queued |
| Engagement.UpsertContentCount | analise/sistema.py:56-78 | one accepted record adds exactly one to the total interaction count over all contents |
| Engagement.UpsertUserCount | analise/sistema.py:62-79 | one accepted record adds exactly one to the total interaction count over all users |
| Engagement.UpsertPlatformCount | analise/sistema.py:50-80 | one accepted record adds exactly one to the total interaction count over all platforms |
| Engagement.FoldContentCount | analise/sistema.py:75-78 | summed over all contents, the interaction counts grow by exactly the number of accepted records |
| Engagement.FoldUserCount | analise/sistema.py:75-79 | summed over all users, the interaction counts grow by exactly the number of accepted records |
| Engagement.FoldPlatformCount | analise/sistema.py:75-80 | summed over all platforms in registry order, the interaction counts grow by exactly the number of accepted records |
| Engagement.FoldConservesCounts | analise/sistema.py:75-80 | summed over contents, over users and over platforms, the interaction counts grow by exactly the number of accepted records |
| Engagement.FoldContentKeys | analise/sistema.py:56-59 | the content tree ends up holding the previous ids plus those of the accepted records |
| Engagement.FoldUserKeys | analise/sistema.py:62-65 | the user tree ends up holding the previous ids plus those of the accepted records |
| Engagement.FoldPlatformKeys | analise/sistema.py:50-53 | the registry ends up holding the previous names plus those of the accepted records |
| Engagement.UpsertContentHistory | analise/sistema.py:56-78 | on a search tree, the record's content list gains exactly the new interaction at its end, and every other content's list is unchanged |
| Engagement.UpsertUserHistory | analise/sistema.py:62-79 | on a search tree, the record's user list gains exactly the new interaction at its end, and every other user's list is unchanged |
| Engagement.UpsertPlatformHistory | analise/sistema.py:50-80 | the record's platform list gains exactly the new interaction at its end, and every other platform's list is unchanged |
| Engagement.StepContentHistory | analise/sistema.py:33-78 | one record appends to a content's list exactly the interaction it files under that content: one if accepted and naming it, none otherwise |
| Engagement.StepUserHistory | analise/sistema.py:33-79 | one record appends to a user's list exactly the interaction it files under that user |
| Engagement.StepPlatformHistory | analise/sistema.py:33-80 | one record appends to a platform's list exactly the interaction it files under that platform |
| Engagement.FoldContentHistory | analise/sistema.py:33-78 | after processing, each content's list is its old list followed by the interactions of the accepted records naming it, in queue order |
| Engagement.FoldUserHistory | analise/sistema.py:33-79 | after processing, each user's list is its old list followed by the interactions of the accepted records naming it, in queue order |
| Engagement.FoldPlatformHistory | analise/sistema.py:33-80 | after processing, each platform's list is its old list followed by the interactions of the accepted records naming it, in queue order |
| Engagement.FoldTotals | analise/sistema.py:75-80 | after processing, each entity's `total_interacoes` is its old count plus the number of accepted records naming it |
| Engagement.FoldListingLength | analise/sistema.py:84-92 | each in-order listing has exactly one entry per distinct id seen |
| Engagement.ProcessFromScratch | analise/sistema.py:18-80 | loading rows into a new system and processing them empties the queue, keeps the engine well formed, and leaves content and user totals equal to the number of accepted rows |
| Engagement.RegistryValues | analise/sistema.py:98 | the registry's values, one per registered name, in insertion order |
| Engagement.StoredContents | analise/sistema.py:84-85 | every content taken from the in-order listing is the one stored under its id |
| Engagement.StoredUsers | analise/sistema.py:91-92 | every user taken from the in-order listing is the one stored under its id |
| Engagement.TopContentsByTime | analise/sistema.py:82-87 | contents by watch time, highest first, a prefix of the stable sort of the in-order listing; all of them for None or 0, min(n, count) for positive n; each the stored content of its id |
| Engagement.TopUsersByInteractions | analise/sistema.py:89-94 | users by interaction count, highest first, a prefix of the stable sort of the in-order listing; all of them for None or 0, min(n, count) for positive n; each the stored user of its id |
| Engagement.PlatformsByTime | analise/sistema.py:96-100 | platforms by watch time, highest first, a prefix of the stable sort in registry order; all of them for None or 0; each the registered platform of its name |
| Engagement.EmptyInputEmptyReports | analise/sistema.py:31-100 | processing an empty new system changes nothing, and all three reports are empty |
| EngagementExample.ParseExample | analise/sistema.py:35-73 | the three example records are accepted with the expected ids, names, types, durations and comments |
| EngagementExample.ExampleFold | analise/sistema.py:33-80 | processing the three example records is three ingestions in queue order |
| EngagementExample.ThreeContents | analise/sistema.py:56-78 | two records on one content and a third on another, into an empty index, leave exactly those two ids, the first holding the first two interactions in order |
| EngagementExample.ThreeUsers | analise/sistema.py:62-79 | two records by one user around a record by another leave the first user with the first and third interactions, in order |
| EngagementExample.ThreePlatforms | analise/sistema.py:50-80 | two records on one platform then one on another leave the first platform with the first two interactions, in order |
| EngagementExample.ExampleFigures | analise/sistema.py:31-80 | content 1 ends with 2 interactions and 30 s watched; content 2 with 1 interaction and the comment "nice"; user 10 with 2 interactions; platform X with 2 interactions, 1 of them engagement |
| EngagementExample.ExampleTopContent | analise/sistema.py:82-87 | the example's top-1 content by watch time is content 1 |

## Left out

- `carregar_interacoes_csv` does file reading through `open` and `csv.DictReader`. Only its effect on the queue is modelled (`Engagement.Load`), over a given sequence of field maps.
- Python's `int()` and `float()` are library semantics the model cannot see. They are the parameters `parseInt` and `parseReal`, partial parsers that return None where Python raises `ValueError`.
- Durations and watch times are exact `real`s instead of IEEE doubles, so rounding in `tempo_total_consumo` and in the average is not modelled.
- Engagement.ParseDuration: Python's `float()` also accepts "nan", "inf" and "1e999", which give non-finite values; `parseReal` yields finite reals only, so those inputs are not modelled.
- Engagement.TopContentsByTime: the descending order is claimed for finite watch times only; with a NaN time Python's `sorted` gives no such order. The result length is stated only for `n` that is None, 0 or positive; for negative `n`, `Ranking.Truncate` states the Python slice length.
- Engagement.TopUsersByInteractions: the result length is stated only for `n` that is None, 0 or positive; for negative `n`, `Ranking.Truncate` states the Python slice length.
- The `__repr__` methods and main.py only format and print.
- The empty subclasses `Video`, `Podcast` and `Artigo` add no behaviour.
- `obter_fila_interacoes` hands out the internal queue object. Aliasing and object identity are not modelled. An interaction names its user and content by id and its platform by name, instead of holding the entity objects.
- Queue.Dequeue: an empty queue gives None instead of raising IndexError. Every caller in the model checks for emptiness first, as the source's loops do.
- ContentEntity.DecimalString: the contract fixes the sign, the character range and the value the digits denote, but does not state that there are no leading zeros.
- Engagement.PlatformsByTime does not state the length for a positive or negative `n`, because the registry's value list is only as long as the order list on a well-formed engine. Its descending order is claimed for finite watch times only, as for the content report.
- The worked example's end-to-end figures are proved from any well-formed engine with empty indexes, not from the literal `NewSystem()` value.
- The removal of the in-order successor inside `remover` is the same recursive call, so `_min_node` is modelled as `Bst.MinEntry`, which returns the key and value instead of a node.
