/** The view row shared by the sample and principle endpoints, and the errors they report. */
module Common {
  import opened Wrappers
  import opened Models

  /** The comment's columns followed by the overlay fields taken from the caller's revision. */
  datatype DataRow = DataRow(
    id: string,
    preceding: Option<string>,
    target: string,
    following: Option<string>,
    a1Score: int,
    a2Score: int,
    a3Score: int,
    principleId: Option<string>,
    llmJustification: Option<string>,
    llmEvidenceQuote: Option<string>,
    expertOpinion: Option<string>,
    isRevised: bool,
    reviserName: Option<string>,
    revisionTimestamp: Option<Timestamp>)

  /** The errors of the core: unknown ids, and a revision insert the store refuses. */
  datatype ApiError =
    | SampleNotFound
    | PrincipleNotFound(principleId: string)
      /**
       * The comment has no principle, so the required `principle_id` of a new revision is null;
       * the store refuses the record when the session commits, and no revision is written.
       */
    | PrincipleIdRequired

  /** `row` shows every column of comment `c` unchanged. */
  predicate ShowsSample(row: DataRow, c: Comment) {
    && row.id == c.id
    && row.preceding == c.preceding
    && row.target == c.target
    && row.following == c.following
    && row.a1Score == c.a1Score
    && row.a2Score == c.a2Score
    && row.a3Score == c.a3Score
    && row.principleId == c.principleId
    && row.llmJustification == c.llmJustification
    && row.llmEvidenceQuote == c.llmEvidenceQuote
  }

  /** The row that shows comment `c` with the given overlay fields. */
  function RowOf(c: Comment, expertOpinion: Option<string>, isRevised: bool,
                 reviserName: Option<string>, revisionTimestamp: Option<Timestamp>): (row: DataRow)
    ensures ShowsSample(row, c)
    ensures row.expertOpinion == expertOpinion && row.isRevised == isRevised
    ensures row.reviserName == reviserName && row.revisionTimestamp == revisionTimestamp
  {
    DataRow(c.id, c.preceding, c.target, c.following, c.a1Score, c.a2Score, c.a3Score,
            c.principleId, c.llmJustification, c.llmEvidenceQuote,
            expertOpinion, isRevised, reviserName, revisionTimestamp)
  }
}
