/**
 * The principle endpoints: listing principles, the partial update of one principle,
 * and the per-principle sample listing with its statistics. In this listing a row
 * counts as revised when the caller's revision carries an opinion at all.
 */
module Principles {
  import opened Wrappers
  import opened Models
  import opened Common
  import opened Tables

  // ---------------------------------------------------------------------------
  // Listing and editing principles
  // ---------------------------------------------------------------------------

  /** A principle as the endpoints return it: criteria are never null. */
  datatype PrincipleSchema = PrincipleSchema(
    id: string,
    labelName: string,
    definition: string,
    inclusionCriteria: string,
    exclusionCriteria: string)

  /** A partial update: `None` marks a field the request leaves alone. */
  datatype UpdatePrincipleRequest = UpdatePrincipleRequest(
    labelName: Option<string>,
    definition: Option<string>,
    inclusionCriteria: Option<string>,
    exclusionCriteria: Option<string>)

  /** The schema of `p`: `name` becomes `labelName`, null criteria become empty texts. */
  function Schema(p: Principle): (s: PrincipleSchema)
    ensures s.id == p.id && s.labelName == p.name && s.definition == p.definition
    ensures p.inclusionCriteria.None? ==> s.inclusionCriteria == ""
    ensures p.inclusionCriteria.Some? ==> s.inclusionCriteria == p.inclusionCriteria.value
    ensures p.exclusionCriteria.None? ==> s.exclusionCriteria == ""
    ensures p.exclusionCriteria.Some? ==> s.exclusionCriteria == p.exclusionCriteria.value
  {
    PrincipleSchema(p.id, p.name, p.definition,
                    p.inclusionCriteria.GetOr(""), p.exclusionCriteria.GetOr(""))
  }

  /** One schema entry per stored principle, in table order. */
  function ListPrinciples(principles: seq<Principle>): (r: seq<PrincipleSchema>)
    ensures |r| == |principles|
    ensures forall i :: 0 <= i < |r| ==> r[i] == Schema(principles[i])
  {
    if |principles| == 0 then []
    else [Schema(principles[0])] + ListPrinciples(principles[1..])
  }

  /**
   * `p` with every field the request supplies replaced and every other field,
   * including the id and the context rule, kept.
   */
  function Merge(p: Principle, req: UpdatePrincipleRequest): (r: Principle)
    ensures r.id == p.id && r.contextRule == p.contextRule
    ensures req.labelName.Some? ==> r.name == req.labelName.value
    ensures req.labelName.None? ==> r.name == p.name
    ensures req.definition.Some? ==> r.definition == req.definition.value
    ensures req.definition.None? ==> r.definition == p.definition
    ensures req.inclusionCriteria.Some? ==> r.inclusionCriteria == req.inclusionCriteria
    ensures req.inclusionCriteria.None? ==> r.inclusionCriteria == p.inclusionCriteria
    ensures req.exclusionCriteria.Some? ==> r.exclusionCriteria == req.exclusionCriteria
    ensures req.exclusionCriteria.None? ==> r.exclusionCriteria == p.exclusionCriteria
  {
    p.(name := req.labelName.GetOr(p.name),
       definition := req.definition.GetOr(p.definition),
       inclusionCriteria := if req.inclusionCriteria.Some? then req.inclusionCriteria else p.inclusionCriteria,
       exclusionCriteria := if req.exclusionCriteria.Some? then req.exclusionCriteria else p.exclusionCriteria)
  }

  /** A request that supplies nothing leaves the principle unchanged. */
  lemma MergeNothing(p: Principle)
    ensures Merge(p, UpdatePrincipleRequest(None, None, None, None)) == p
  {
  }

  /** Applying the same request twice is the same as applying it once. */
  lemma MergeIdempotent(p: Principle, req: UpdatePrincipleRequest)
    ensures Merge(Merge(p, req), req) == Merge(p, req)
  {
  }

  /**
   * Updates principle `principleId` in place with the fields the request supplies
   * and returns its schema; an unknown id is not found and changes nothing.
   */
  method UpdatePrinciple(db: Database, principleId: string, req: UpdatePrincipleRequest)
    returns (res: Result<PrincipleSchema, ApiError>)
    requires db.Valid()
    modifies db
    ensures db.Valid()
    ensures db.samples == old(db.samples) && db.revisions == old(db.revisions)
    ensures FindPrinciple(old(db.principles), principleId).None? ==>
      res == Err(PrincipleNotFound(principleId)) && db.principles == old(db.principles)
    ensures FindPrinciple(old(db.principles), principleId).Some? ==>
      var k := FindPrinciple(old(db.principles), principleId).value;
      && db.principles == old(db.principles)[k := Merge(old(db.principles)[k], req)]
      && res == Ok(Schema(db.principles[k]))
  {
    var found := FindPrinciple(db.principles, principleId);
    if found.None? {
      return Err(PrincipleNotFound(principleId));
    }
    var k := found.value;
    var principle := db.principles[k];
    if req.labelName.Some? {
      principle := principle.(name := req.labelName.value);
    }
    if req.definition.Some? {
      principle := principle.(definition := req.definition.value);
    }
    if req.inclusionCriteria.Some? {
      principle := principle.(inclusionCriteria := req.inclusionCriteria);
    }
    if req.exclusionCriteria.Some? {
      principle := principle.(exclusionCriteria := req.exclusionCriteria);
    }
    assert principle == Merge(db.principles[k], req);
    db.principles := db.principles[k := principle];
    res := Ok(Schema(principle));
  }

  // ---------------------------------------------------------------------------
  // The per-principle listing
  // ---------------------------------------------------------------------------

  /**
   * A listing row: the caller's opinion (null without a revision), revised iff that
   * opinion is not null, the caller's name, and `created_at` of the revision.
   */
  function ListingRow(c: Comment, rev: Option<Revision>, user: User): (row: DataRow)
    ensures ShowsSample(row, c)
    ensures rev.None? ==> row.expertOpinion.None?
    ensures rev.Some? ==> row.expertOpinion == rev.value.expertOpinion
    ensures row.isRevised <==> row.expertOpinion.Some?
    ensures rev.None? ==> row.reviserName.None?
    ensures rev.Some? ==> row.reviserName == user.fullName
    ensures row.revisionTimestamp.None? <==> rev.None? || rev.value.createdAt.None?
    ensures row.revisionTimestamp.Some? ==> row.revisionTimestamp == rev.value.createdAt
  {
    var opinion := if rev.Some? then rev.value.expertOpinion else None;
    RowOf(c, opinion, opinion.Some?,
          if rev.Some? then user.fullName else None,
          if rev.Some? then rev.value.createdAt else None)
  }

  /** The comments of principle `principleId`, in table order. */
  function OfPrinciple(samples: seq<Comment>, principleId: string): (r: seq<Comment>)
    ensures |r| <= |samples|
    ensures forall c :: c in r <==> c in samples && c.principleId == Some(principleId)
    ensures |samples| == 1 ==> r == if samples[0].principleId == Some(principleId) then samples else []
  {
    if |samples| == 0 then []
    else
      var last := samples[|samples| - 1];
      OfPrinciple(samples[..|samples| - 1], principleId)
        + (if last.principleId == Some(principleId) then [last] else [])
  }

  /** Selecting from two tables one after the other is selecting from their concatenation. */
  lemma {:induction false} OfPrincipleAppend(a: seq<Comment>, b: seq<Comment>, principleId: string)
    ensures OfPrinciple(a + b, principleId) == OfPrinciple(a, principleId) + OfPrinciple(b, principleId)
  {
    if |b| == 0 {
      assert a + b == a;
    } else {
      OfPrincipleAppend(a, b[..|b| - 1], principleId);
      assert (a + b)[..|a + b| - 1] == a + b[..|b| - 1];
      assert (a + b)[|a + b| - 1] == b[|b| - 1];
    }
  }

  /**
   * The listing of principle `principleId` for `user`: one row per comment of that
   * principle, in order, each joined with the caller's own revision only.
   */
  function PrincipleRows(samples: seq<Comment>, revs: seq<Revision>, user: User, principleId: string)
    : (rows: seq<DataRow>)
    ensures |rows| == |OfPrinciple(samples, principleId)|
    ensures forall i :: 0 <= i < |rows| ==>
      rows[i] == ListingRow(OfPrinciple(samples, principleId)[i],
                            RevisionFor(revs, user.id, OfPrinciple(samples, principleId)[i].id), user)
  {
    if |samples| == 0 then []
    else
      var last := samples[|samples| - 1];
      PrincipleRows(samples[..|samples| - 1], revs, user, principleId)
        + (if last.principleId == Some(principleId)
           then [ListingRow(last, RevisionFor(revs, user.id, last.id), user)] else [])
  }

  /** The listing ignores every revision that is not the caller's. */
  lemma {:induction false} PrincipleRowsOnlyOwnRevisions(samples: seq<Comment>, revs: seq<Revision>, user: User,
                                                         principleId: string)
    ensures PrincipleRows(samples, revs, user, principleId)
         == PrincipleRows(samples, OwnedBy(revs, user.id), user, principleId)
  {
    if |samples| > 0 {
      PrincipleRowsOnlyOwnRevisions(samples[..|samples| - 1], revs, user, principleId);
      RevisionForOwnOnly(revs, user.id, samples[|samples| - 1].id);
    }
  }

  /** Every comment of the principle shows up in the listing, joined with the caller's revision. */
  lemma ListedComment(samples: seq<Comment>, revs: seq<Revision>, user: User, c: Comment)
    requires c in samples && c.principleId.Some?
    ensures ListingRow(c, RevisionFor(revs, user.id, c.id), user)
            in PrincipleRows(samples, revs, user, c.principleId.value)
  {
    var cs := OfPrinciple(samples, c.principleId.value);
    var i :| 0 <= i < |cs| && cs[i] == c;
    assert PrincipleRows(samples, revs, user, c.principleId.value)[i]
        == ListingRow(c, RevisionFor(revs, user.id, c.id), user);
  }

  /**
   * Builds the listing of principle `principleId` for `user` by one pass over the
   * comment table, appending a row for each comment of that principle.
   */
  method PrincipleCommentsWithRevisionStatus(db: Database, principleId: string, user: User)
    returns (samples: seq<DataRow>)
    ensures samples == PrincipleRows(db.samples, db.revisions, user, principleId)
  {
    samples := [];
    var i := 0;
    while i < |db.samples|
      invariant 0 <= i <= |db.samples|
      invariant samples == PrincipleRows(db.samples[..i], db.revisions, user, principleId)
    {
      var comment := db.samples[i];
      if comment.principleId == Some(principleId) {
        samples := samples + [ListingRow(comment, RevisionFor(db.revisions, user.id, comment.id), user)];
      }
      assert db.samples[..i + 1][..i] == db.samples[..i];
      i := i + 1;
    }
    assert db.samples[..i] == db.samples;
  }

  // ---------------------------------------------------------------------------
  // Statistics and the revised filter
  // ---------------------------------------------------------------------------

  /** The statistics of a listing. */
  datatype SampleStats = SampleStats(total: nat, revised: nat, percentage: real)

  /** The listing's response: the rows shown and the statistics. */
  datatype SamplesResponse = SamplesResponse(samples: seq<DataRow>, stats: SampleStats)

  /** The number of revised rows. */
  function CountRevised(rows: seq<DataRow>): (n: nat)
    ensures n <= |rows|
    ensures n == 0 <==> forall row :: row in rows ==> !row.isRevised
  {
    if |rows| == 0 then 0
    else (if rows[0].isRevised then 1 else 0) + CountRevised(rows[1..])
  }

  /** The rows that are not revised, in their original order. */
  function Unrevised(rows: seq<DataRow>): (r: seq<DataRow>)
    ensures |r| + CountRevised(rows) == |rows|
    ensures forall row :: row in r <==> row in rows && !row.isRevised
  {
    if |rows| == 0 then []
    else (if rows[0].isRevised then [] else [rows[0]]) + Unrevised(rows[1..])
  }

  /** On a single row the count is its revised flag and the filter keeps it iff it is not revised. */
  lemma OneRow(row: DataRow)
    ensures CountRevised([row]) == if row.isRevised then 1 else 0
    ensures Unrevised([row]) == if row.isRevised then [] else [row]
  {
    assert [row][1..] == [];
  }

  /** The revised count of concatenated listings is the sum of their counts. */
  lemma {:induction false} CountRevisedAppend(a: seq<DataRow>, b: seq<DataRow>)
    ensures CountRevised(a + b) == CountRevised(a) + CountRevised(b)
  {
    if |a| == 0 {
      assert a + b == b;
    } else {
      CountRevisedAppend(a[1..], b);
      assert (a + b)[1..] == a[1..] + b;
    }
  }

  /** Dropping the first row of a concatenation with a non-empty front. */
  lemma TailOfAppend(a: seq<DataRow>, b: seq<DataRow>)
    requires |a| > 0
    ensures (a + b)[0] == a[0]
    ensures (a + b)[1..] == a[1..] + b
  {
  }

  /** Concatenation of listings is associative. */
  lemma AppendAssoc(x: seq<DataRow>, y: seq<DataRow>, z: seq<DataRow>)
    ensures x + (y + z) == (x + y) + z
  {
  }

  /** The filter decides the first row of a non-empty listing, then filters the rest. */
  lemma UnrevisedFirst(s: seq<DataRow>)
    requires |s| > 0
    ensures Unrevised(s) == (if s[0].isRevised then [] else [s[0]]) + Unrevised(s[1..])
  {
  }

  /** One step of the induction below: the filter of `a + b` starts with that of `a[0]`. */
  lemma UnrevisedAppendStep(a: seq<DataRow>, b: seq<DataRow>)
    requires |a| > 0
    requires Unrevised(a[1..] + b) == Unrevised(a[1..]) + Unrevised(b)
    ensures Unrevised(a + b) == Unrevised(a) + Unrevised(b)
  {
    TailOfAppend(a, b);
    UnrevisedFirst(a + b);
    UnrevisedFirst(a);
    AppendAssoc(if a[0].isRevised then [] else [a[0]], Unrevised(a[1..]), Unrevised(b));
  }

  /** Filtering concatenated listings keeps each part's unrevised rows, in order. */
  lemma {:induction false} UnrevisedAppend(a: seq<DataRow>, b: seq<DataRow>)
    ensures Unrevised(a + b) == Unrevised(a) + Unrevised(b)
  {
    if |a| == 0 {
      assert a + b == b;
    } else {
      UnrevisedAppend(a[1..], b);
      UnrevisedAppendStep(a, b);
    }
  }

  /** `revised / total * 100`, and 0 when there are no rows; it never exceeds 100. */
  function Percentage(revised: nat, total: nat): (p: real)
    ensures total == 0 ==> p == 0.0
    ensures total > 0 ==> p * (total as real) == (revised as real) * 100.0
    ensures 0.0 <= p
    ensures revised <= total ==> p <= 100.0
  {
    if total > 0 then (revised as real) / (total as real) * 100.0 else 0.0
  }

  /** Statistics of a listing: its size, its revised rows and their share in percent. */
  function Stats(rows: seq<DataRow>): (s: SampleStats)
    ensures s.total == |rows| && s.revised == CountRevised(rows)
    ensures s.revised <= s.total
    ensures 0.0 <= s.percentage <= 100.0
    ensures s.total == 0 ==> s == SampleStats(0, 0, 0.0)
    ensures s.total > 0 ==> s.percentage * (s.total as real) == (s.revised as real) * 100.0
  {
    var revised := CountRevised(rows);
    var percentage := Percentage(revised, |rows|);
    SampleStats(|rows|, revised, percentage)
  }

  /**
   * The response for the unfiltered listing `rows`: the statistics always describe
   * all rows; with `showRevised` false only the unrevised rows are returned.
   */
  function SamplesByPrinciple(rows: seq<DataRow>, showRevised: bool): (resp: SamplesResponse)
    ensures resp.stats == Stats(rows)
    ensures showRevised ==> resp.samples == rows
    ensures !showRevised ==> resp.samples == Unrevised(rows)
    ensures |resp.samples| == if showRevised then resp.stats.total else resp.stats.total - resp.stats.revised
  {
    SamplesResponse(if showRevised then rows else Unrevised(rows), Stats(rows))
  }

  /**
   * Four rows of which one is revised: 25 percent; hiding revised rows returns three
   * rows while the statistics still count four.
   */
  lemma OneOfFourRevised(rows: seq<DataRow>)
    requires |rows| == 4 && CountRevised(rows) == 1
    ensures Stats(rows) == SampleStats(4, 1, 25.0)
    ensures |SamplesByPrinciple(rows, false).samples| == 3
    ensures SamplesByPrinciple(rows, false).stats.total == 4
  {
    assert Percentage(1, 4) == 25.0;
  }

  /** The listing endpoint of principle `principleId` for `user`. */
  method GetSamplesByPrinciple(db: Database, user: User, principleId: string, showRevised: bool := true)
    returns (resp: SamplesResponse)
    ensures resp == SamplesByPrinciple(PrincipleRows(db.samples, db.revisions, user, principleId), showRevised)
  {
    var rawSamples := PrincipleCommentsWithRevisionStatus(db, principleId, user);
    resp := SamplesByPrinciple(rawSamples, showRevised);
  }
}
