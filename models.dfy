/**
 * The record shapes of the annotation store: principles (labelling categories),
 * comments (the samples under review), per-user revision records and the user
 * fields the core reads. Nullable columns are `Option`s; timestamps are natural
 * numbers (the clock is a parameter of the writers).
 */
module Models {
  import opened Wrappers

  /** A user's identifier (a UUID in the store). */
  type UserId = string

  /** A point in time; only equality and order matter to the core. */
  type Timestamp = nat

  /** The fields of the authenticated user the core reads: its id and its optional display name. */
  datatype User = User(id: UserId, fullName: Option<string>)

  /** A labelling principle, keyed by `id`; `name` and `definition` are required. */
  datatype Principle = Principle(
    id: string,
    name: string,
    definition: string,
    contextRule: Option<string>,
    inclusionCriteria: Option<string>,
    exclusionCriteria: Option<string>)

  /**
   * A sample under review, keyed by `id`. `target` and the three scores are required;
   * the context spans, the machine-generated texts and the principle are nullable.
   */
  datatype Comment = Comment(
    id: string,
    preceding: Option<string>,
    target: string,
    following: Option<string>,
    a1Score: int,
    a2Score: int,
    a3Score: int,
    llmJustification: Option<string>,
    llmEvidenceQuote: Option<string>,
    principleId: Option<string>)

  /**
   * One user's revision of one comment. `principleId` is a required column (a copy
   * of the comment's principle at write time). `isReviseCompleted` is the completion
   * flag that the routes read and write.
   */
  datatype Revision = Revision(
    userId: UserId,
    commentId: string,
    principleId: string,
    expertOpinion: Option<string>,
    isReviseCompleted: bool,
    updatedAt: Option<Timestamp>,
    createdAt: Option<Timestamp>)

  /** A principle built from its required fields only: the optional texts default to null. */
  function NewPrinciple(id: string, name: string, definition: string): (p: Principle)
    ensures p.id == id && p.name == name && p.definition == definition
    ensures p.contextRule.None? && p.inclusionCriteria.None? && p.exclusionCriteria.None?
  {
    Principle(id, name, definition, None, None, None)
  }

  /**
   * A comment built from its required fields only; `principleId` has no default
   * (it is nullable but must be given), every other optional text defaults to null.
   */
  function NewComment(id: string, target: string, a1Score: int, a2Score: int, a3Score: int,
                      principleId: Option<string>): (c: Comment)
    ensures c.id == id && c.target == target && c.principleId == principleId
    ensures c.a1Score == a1Score && c.a2Score == a2Score && c.a3Score == a3Score
    ensures c.preceding.None? && c.following.None?
    ensures c.llmJustification.None? && c.llmEvidenceQuote.None?
  {
    Comment(id, None, target, None, a1Score, a2Score, a3Score, None, None, principleId)
  }

  /**
   * A revision built from its three references only: no opinion, not completed,
   * and both timestamps null.
   */
  function NewRevision(userId: UserId, commentId: string, principleId: string): (r: Revision)
    ensures r.userId == userId && r.commentId == commentId && r.principleId == principleId
    ensures r.expertOpinion.None? && !r.isReviseCompleted
    ensures r.updatedAt.None? && r.createdAt.None?
  {
    Revision(userId, commentId, principleId, None, false, None, None)
  }
}
