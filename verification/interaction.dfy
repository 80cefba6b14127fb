/**
 * The interaction record (`Interacao`). It names its user, content and platform
 * by id and name instead of holding the entity objects, and it is never changed
 * after construction.
 */
module Interactions {
  import opened Wrappers

  /**
   * `kind` and `comment` are optional because the pipeline copies them from a
   * field map where the field may be missing; no vocabulary check is applied.
   */
  datatype Interaction = Interaction(
    userId: int,
    contentId: int,
    platform: string,
    kind: Option<string>,
    duration: real,
    comment: Option<string>)

  const ViewStart: string := "view_start"
  const Like: string := "like"
  const Share: string := "share"
  const Comment: string := "comment"

  /** The constructor: every argument is stored as given; duration defaults to 0 and comment to None. */
  function NewInteraction(
    userId: int,
    contentId: int,
    platform: string,
    kind: Option<string>,
    duration: real := 0.0,
    comment: Option<string> := None): (r: Interaction)
    ensures r.userId == userId && r.contentId == contentId && r.platform == platform
    ensures r.kind == kind && r.duration == duration && r.comment == comment
  {
    Interaction(userId, contentId, platform, kind, duration, comment)
  }

  /** Omitted optional arguments give a zero duration and no comment, whatever the kind. */
  lemma NewInteractionDefaults(userId: int, contentId: int, platform: string, kind: Option<string>)
    ensures NewInteraction(userId, contentId, platform, kind).duration == 0.0
    ensures NewInteraction(userId, contentId, platform, kind).comment == None
    ensures NewInteraction(userId, contentId, platform, kind).kind == kind
  {
  }
}
