/**
 * The sample endpoints: reading one sample through the caller's revision overlay,
 * and the two upserts that record the caller's opinion or completion flag.
 * The upserts look the revision up by its natural key (user, comment), update it
 * in place when it exists and insert a new one otherwise.
 */
module Samples {
  import opened Wrappers
  import opened Models
  import opened Common
  import opened Tables

  // ---------------------------------------------------------------------------
  // Reading
  // ---------------------------------------------------------------------------

  /**
   * The row of the single-sample read: the opinion, the completion flag and
   * `created_at` of the caller's revision, and the caller's name, or defaults
   * when the caller has no revision.
   */
  function ReadRow(c: Comment, rev: Option<Revision>, user: User): (row: DataRow)
    ensures ShowsSample(row, c)
    ensures rev.None? ==>
      row.expertOpinion.None? && !row.isRevised && row.reviserName.None? && row.revisionTimestamp.None?
    ensures rev.Some? ==>
      && row.expertOpinion == rev.value.expertOpinion
      && row.isRevised == rev.value.isReviseCompleted
      && row.reviserName == user.fullName
      && row.revisionTimestamp == rev.value.createdAt
  {
    match rev
    case None => RowOf(c, None, false, None, None)
    case Some(r) => RowOf(c, r.expertOpinion, r.isReviseCompleted, user.fullName, r.createdAt)
  }

  /** Reads sample `sampleId` as `user` sees it; an unknown id is not found. */
  function GetSample(samples: seq<Comment>, revs: seq<Revision>, user: User, sampleId: string)
    : (r: Result<DataRow, ApiError>)
    ensures r.Err? <==> (forall c :: c in samples ==> c.id != sampleId)
    ensures r.Err? ==> r.error == SampleNotFound
    ensures r.Ok? ==> r.value.id == sampleId && ShowsSample(r.value, FindSample(samples, sampleId).value)
    ensures r.Ok? && RevisionFor(revs, user.id, sampleId).None? ==>
      && r.value.expertOpinion.None? && !r.value.isRevised
      && r.value.reviserName.None? && r.value.revisionTimestamp.None?
    ensures r.Ok? && RevisionFor(revs, user.id, sampleId).Some? ==>
      && r.value.expertOpinion == RevisionFor(revs, user.id, sampleId).value.expertOpinion
      && r.value.isRevised == RevisionFor(revs, user.id, sampleId).value.isReviseCompleted
      && r.value.reviserName == user.fullName
      && r.value.revisionTimestamp == RevisionFor(revs, user.id, sampleId).value.createdAt
  {
    match FindSample(samples, sampleId)
    case None => Err(SampleNotFound)
    case Some(c) => Ok(ReadRow(c, RevisionFor(revs, user.id, c.id), user))
  }

  /** The read ignores every revision that is not the caller's. */
  lemma GetSampleOnlyOwnRevisions(samples: seq<Comment>, revs: seq<Revision>, user: User, sampleId: string)
    ensures GetSample(samples, revs, user, sampleId) == GetSample(samples, OwnedBy(revs, user.id), user, sampleId)
  {
    RevisionForOwnOnly(revs, user.id, sampleId);
  }

  /** Two tables holding the same revisions of the caller read the same for the caller. */
  lemma GetSampleSameOwn(samples: seq<Comment>, revs: seq<Revision>, revs': seq<Revision>, user: User, sampleId: string)
    requires OwnedBy(revs, user.id) == OwnedBy(revs', user.id)
    ensures GetSample(samples, revs, user, sampleId) == GetSample(samples, revs', user, sampleId)
  {
    SameOwnRevisionsSameJoin(revs, revs', user.id, sampleId);
  }

  // ---------------------------------------------------------------------------
  // Writing
  // ---------------------------------------------------------------------------

  /**
   * The row a writer returns, rendered from the revision it just wrote: the
   * caller's name, and `updated_at`, falling back to `created_at`.
   */
  function WrittenRow(c: Comment, rev: Revision, user: User): (row: DataRow)
    ensures ShowsSample(row, c)
    ensures row.expertOpinion == rev.expertOpinion && row.isRevised == rev.isReviseCompleted
    ensures row.reviserName == user.fullName
    ensures rev.updatedAt.Some? ==> row.revisionTimestamp == rev.updatedAt
    ensures rev.updatedAt.None? ==> row.revisionTimestamp == rev.createdAt
  {
    RowOf(c, rev.expertOpinion, rev.isReviseCompleted, user.fullName,
          if rev.updatedAt.Some? then rev.updatedAt else rev.createdAt)
  }

  /** `after` is the same record as `before` as far as owner, comment, principle and creation go. */
  predicate SameRecord(before: Revision, after: Revision) {
    && after.userId == before.userId
    && after.commentId == before.commentId
    && after.principleId == before.principleId
    && after.createdAt == before.createdAt
  }

  /**
   * The revision table after `userId` sets `opinion` on comment `c` at time `now`.
   * An existing revision gets the opinion and `updated_at = now` and keeps its
   * completion flag; otherwise one record is appended, not completed, created and
   * updated at `now`, unless the comment has no principle to copy.
   */
  function OpinionWrite(revs: seq<Revision>, userId: UserId, c: Comment, opinion: string, now: Timestamp)
    : (r: Result<seq<Revision>, ApiError>)
    ensures FindRevision(revs, userId, c.id).Some? ==>
      var k := FindRevision(revs, userId, c.id).value;
      && r.Ok? && |r.value| == |revs|
      && SameRecord(revs[k], r.value[k])
      && r.value[k].expertOpinion == Some(opinion)
      && r.value[k].updatedAt == Some(now)
      && r.value[k].isReviseCompleted == revs[k].isReviseCompleted
      && forall j :: 0 <= j < |revs| && j != k ==> r.value[j] == revs[j]
    ensures FindRevision(revs, userId, c.id).None? && c.principleId.None? ==>
      r == Err(PrincipleIdRequired)
    ensures FindRevision(revs, userId, c.id).None? && c.principleId.Some? ==>
      && r.Ok? && |r.value| == |revs| + 1 && r.value[..|revs|] == revs
      && var n := r.value[|revs|];
      && Owns(n, userId, c.id) && n.principleId == c.principleId.value
      && n.expertOpinion == Some(opinion) && !n.isReviseCompleted
      && n.createdAt == Some(now) && n.updatedAt == Some(now)
  {
    match FindRevision(revs, userId, c.id)
    case Some(k) =>
      Ok(revs[k := revs[k].(expertOpinion := Some(opinion), updatedAt := Some(now))])
    case None =>
      if c.principleId.None? then Err(PrincipleIdRequired)
      else
        var n := NewRevision(userId, c.id, c.principleId.value).(
          expertOpinion := Some(opinion), isReviseCompleted := false,
          createdAt := Some(now), updatedAt := Some(now));
        assert (revs + [n])[..|revs|] == revs;
        Ok(revs + [n])
  }

  /**
   * The revision table after `userId` sets the completion flag of comment `c` to
   * `completed` at time `now`. An existing revision gets the flag and
   * `updated_at = now` and keeps its opinion; otherwise one record is appended with
   * an empty (not null) opinion, unless the comment has no principle to copy.
   */
  function CompletionWrite(revs: seq<Revision>, userId: UserId, c: Comment, completed: bool, now: Timestamp)
    : (r: Result<seq<Revision>, ApiError>)
    ensures FindRevision(revs, userId, c.id).Some? ==>
      var k := FindRevision(revs, userId, c.id).value;
      && r.Ok? && |r.value| == |revs|
      && SameRecord(revs[k], r.value[k])
      && r.value[k].isReviseCompleted == completed
      && r.value[k].updatedAt == Some(now)
      && r.value[k].expertOpinion == revs[k].expertOpinion
      && forall j :: 0 <= j < |revs| && j != k ==> r.value[j] == revs[j]
    ensures FindRevision(revs, userId, c.id).None? && c.principleId.None? ==>
      r == Err(PrincipleIdRequired)
    ensures FindRevision(revs, userId, c.id).None? && c.principleId.Some? ==>
      && r.Ok? && |r.value| == |revs| + 1 && r.value[..|revs|] == revs
      && var n := r.value[|revs|];
      && Owns(n, userId, c.id) && n.principleId == c.principleId.value
      && n.expertOpinion == Some("") && n.isReviseCompleted == completed
      && n.createdAt == Some(now) && n.updatedAt == Some(now)
  {
    match FindRevision(revs, userId, c.id)
    case Some(k) =>
      Ok(revs[k := revs[k].(isReviseCompleted := completed, updatedAt := Some(now))])
    case None =>
      if c.principleId.None? then Err(PrincipleIdRequired)
      else
        var n := NewRevision(userId, c.id, c.principleId.value).(
          expertOpinion := Some(""), isReviseCompleted := completed,
          createdAt := Some(now), updatedAt := Some(now));
        assert (revs + [n])[..|revs|] == revs;
        Ok(revs + [n])
  }

  /** After a successful opinion write the caller's revision of `c` is the one just written. */
  lemma OpinionWriteFound(revs: seq<Revision>, userId: UserId, c: Comment, opinion: string, now: Timestamp)
    requires OpinionWrite(revs, userId, c, opinion, now).Ok?
    ensures var revs' := OpinionWrite(revs, userId, c, opinion, now).value;
      && FindRevision(revs', userId, c.id) ==
         (if FindRevision(revs, userId, c.id).Some? then FindRevision(revs, userId, c.id) else Some(|revs|))
      && RevisionFor(revs', userId, c.id).Some?
      && RevisionFor(revs', userId, c.id).value.expertOpinion == Some(opinion)
      && RevisionFor(revs', userId, c.id).value.updatedAt == Some(now)
  {
    var revs' := OpinionWrite(revs, userId, c, opinion, now).value;
    FirstOwnedAt(revs', userId, c.id,
      if FindRevision(revs, userId, c.id).Some? then FindRevision(revs, userId, c.id).value else |revs|);
  }

  /** After a successful completion write the caller's revision of `c` is the one just written. */
  lemma CompletionWriteFound(revs: seq<Revision>, userId: UserId, c: Comment, completed: bool, now: Timestamp)
    requires CompletionWrite(revs, userId, c, completed, now).Ok?
    ensures var revs' := CompletionWrite(revs, userId, c, completed, now).value;
      && FindRevision(revs', userId, c.id) ==
         (if FindRevision(revs, userId, c.id).Some? then FindRevision(revs, userId, c.id) else Some(|revs|))
      && RevisionFor(revs', userId, c.id).Some?
      && RevisionFor(revs', userId, c.id).value.isReviseCompleted == completed
      && RevisionFor(revs', userId, c.id).value.updatedAt == Some(now)
  {
    var revs' := CompletionWrite(revs, userId, c, completed, now).value;
    FirstOwnedAt(revs', userId, c.id,
      if FindRevision(revs, userId, c.id).Some? then FindRevision(revs, userId, c.id).value else |revs|);
  }

  /** The opinion write keeps at most one revision per (user, comment). */
  lemma OpinionWriteKeepsAtMostOne(revs: seq<Revision>, userId: UserId, c: Comment, opinion: string, now: Timestamp)
    requires AtMostOne(revs)
    requires OpinionWrite(revs, userId, c, opinion, now).Ok?
    ensures AtMostOne(OpinionWrite(revs, userId, c, opinion, now).value)
  {
    var revs' := OpinionWrite(revs, userId, c, opinion, now).value;
    match FindRevision(revs, userId, c.id)
    case Some(k) =>
      assert revs' == revs[k := revs'[k]];
      AtMostOneAfterUpdate(revs, k, revs'[k]);
    case None =>
      assert revs' == revs + [revs'[|revs|]];
      AtMostOneAfterInsert(revs, revs'[|revs|]);
  }

  /** The completion write keeps at most one revision per (user, comment). */
  lemma CompletionWriteKeepsAtMostOne(revs: seq<Revision>, userId: UserId, c: Comment, completed: bool, now: Timestamp)
    requires AtMostOne(revs)
    requires CompletionWrite(revs, userId, c, completed, now).Ok?
    ensures AtMostOne(CompletionWrite(revs, userId, c, completed, now).value)
  {
    var revs' := CompletionWrite(revs, userId, c, completed, now).value;
    match FindRevision(revs, userId, c.id)
    case Some(k) =>
      assert revs' == revs[k := revs'[k]];
      AtMostOneAfterUpdate(revs, k, revs'[k]);
    case None =>
      assert revs' == revs + [revs'[|revs|]];
      AtMostOneAfterInsert(revs, revs'[|revs|]);
  }

  /** The opinion write leaves every other user's revisions as they were. */
  lemma OpinionWriteKeepsOthers(revs: seq<Revision>, userId: UserId, c: Comment, opinion: string, now: Timestamp, other: UserId)
    requires other != userId
    requires OpinionWrite(revs, userId, c, opinion, now).Ok?
    ensures OwnedBy(OpinionWrite(revs, userId, c, opinion, now).value, other) == OwnedBy(revs, other)
  {
    var revs' := OpinionWrite(revs, userId, c, opinion, now).value;
    match FindRevision(revs, userId, c.id)
    case Some(k) =>
      assert revs' == revs[k := revs'[k]];
      OwnedByUpdate(revs, k, revs'[k], other);
    case None =>
      assert revs' == revs + [revs'[|revs|]];
      OwnedByAppend(revs, revs'[|revs|], other);
  }

  /** The completion write leaves every other user's revisions as they were. */
  lemma CompletionWriteKeepsOthers(revs: seq<Revision>, userId: UserId, c: Comment, completed: bool, now: Timestamp, other: UserId)
    requires other != userId
    requires CompletionWrite(revs, userId, c, completed, now).Ok?
    ensures OwnedBy(CompletionWrite(revs, userId, c, completed, now).value, other) == OwnedBy(revs, other)
  {
    var revs' := CompletionWrite(revs, userId, c, completed, now).value;
    match FindRevision(revs, userId, c.id)
    case Some(k) =>
      assert revs' == revs[k := revs'[k]];
      OwnedByUpdate(revs, k, revs'[k], other);
    case None =>
      assert revs' == revs + [revs'[|revs|]];
      OwnedByAppend(revs, revs'[|revs|], other);
  }

  /** One user's opinion never shows in another user's read of any sample. */
  lemma OpinionIsolation(samples: seq<Comment>, revs: seq<Revision>, userId: UserId, c: Comment,
                         opinion: string, now: Timestamp, reader: User, sampleId: string)
    requires reader.id != userId
    requires OpinionWrite(revs, userId, c, opinion, now).Ok?
    ensures GetSample(samples, OpinionWrite(revs, userId, c, opinion, now).value, reader, sampleId)
         == GetSample(samples, revs, reader, sampleId)
  {
    OpinionWriteKeepsOthers(revs, userId, c, opinion, now, reader.id);
    GetSampleSameOwn(samples, OpinionWrite(revs, userId, c, opinion, now).value, revs, reader, sampleId);
  }

  /** One user's completion flag never shows in another user's read of any sample. */
  lemma CompletionIsolation(samples: seq<Comment>, revs: seq<Revision>, userId: UserId, c: Comment,
                            completed: bool, now: Timestamp, reader: User, sampleId: string)
    requires reader.id != userId
    requires CompletionWrite(revs, userId, c, completed, now).Ok?
    ensures GetSample(samples, CompletionWrite(revs, userId, c, completed, now).value, reader, sampleId)
         == GetSample(samples, revs, reader, sampleId)
  {
    CompletionWriteKeepsOthers(revs, userId, c, completed, now, reader.id);
    GetSampleSameOwn(samples, CompletionWrite(revs, userId, c, completed, now).value, revs, reader, sampleId);
  }

  /**
   * Setting an opinion and then reading the sample shows that opinion; the read
   * agrees with the row the write returned except for the timestamp, which the
   * read takes from `created_at` and the write from `updated_at`.
   */
  lemma OpinionReadBack(samples: seq<Comment>, revs: seq<Revision>, user: User, c: Comment,
                        opinion: string, now: Timestamp)
    requires FindSample(samples, c.id) == Some(c)
    requires OpinionWrite(revs, user.id, c, opinion, now).Ok?
    ensures var revs' := OpinionWrite(revs, user.id, c, opinion, now).value;
      && GetSample(samples, revs', user, c.id).Ok?
      && GetSample(samples, revs', user, c.id).value.expertOpinion == Some(opinion)
      && var written := WrittenRow(c, RevisionFor(revs', user.id, c.id).value, user);
      && GetSample(samples, revs', user, c.id).value.(revisionTimestamp := written.revisionTimestamp) == written
  {
    OpinionWriteFound(revs, user.id, c, opinion, now);
  }

  /** Toggling completion and then reading the sample shows the flag as `is_revised`. */
  lemma CompletionReadBack(samples: seq<Comment>, revs: seq<Revision>, user: User, c: Comment,
                           completed: bool, now: Timestamp)
    requires FindSample(samples, c.id) == Some(c)
    requires CompletionWrite(revs, user.id, c, completed, now).Ok?
    ensures var revs' := CompletionWrite(revs, user.id, c, completed, now).value;
      && GetSample(samples, revs', user, c.id).Ok?
      && GetSample(samples, revs', user, c.id).value.isRevised == completed
      && var written := WrittenRow(c, RevisionFor(revs', user.id, c.id).value, user);
      && GetSample(samples, revs', user, c.id).value.(revisionTimestamp := written.revisionTimestamp) == written
  {
    CompletionWriteFound(revs, user.id, c, completed, now);
  }

  /**
   * Setting an opinion twice never adds a second record: the second write updates
   * the record the first one left, and the caller then sees the second opinion.
   */
  lemma OpinionWriteTwice(revs: seq<Revision>, userId: UserId, c: Comment,
                          first: string, t1: Timestamp, second: string, t2: Timestamp)
    requires OpinionWrite(revs, userId, c, first, t1).Ok?
    ensures var once := OpinionWrite(revs, userId, c, first, t1).value;
      && OpinionWrite(once, userId, c, second, t2).Ok?
      && var twice := OpinionWrite(once, userId, c, second, t2).value;
      && |twice| == |once|
      && RevisionFor(twice, userId, c.id).Some?
      && RevisionFor(twice, userId, c.id).value.expertOpinion == Some(second)
  {
    var once := OpinionWrite(revs, userId, c, first, t1).value;
    OpinionWriteFound(revs, userId, c, first, t1);
    OpinionWriteFound(once, userId, c, second, t2);
  }

  /**
   * Toggling completion twice to the same value changes nothing the second time
   * except `updated_at` of the caller's record.
   */
  lemma CompletionWriteTwice(revs: seq<Revision>, userId: UserId, c: Comment, completed: bool,
                             t1: Timestamp, t2: Timestamp)
    requires CompletionWrite(revs, userId, c, completed, t1).Ok?
    ensures var once := CompletionWrite(revs, userId, c, completed, t1).value;
      && CompletionWrite(once, userId, c, completed, t2).Ok?
      && var k := FindRevision(once, userId, c.id).value;
      && CompletionWrite(once, userId, c, completed, t2).value == once[k := once[k].(updatedAt := Some(t2))]
  {
    var once := CompletionWrite(revs, userId, c, completed, t1).value;
    CompletionWriteFound(revs, userId, c, completed, t1);
    var k := FindRevision(once, userId, c.id).value;
    var twice := CompletionWrite(once, userId, c, completed, t2).value;
    assert once[k].isReviseCompleted == completed;
    assert twice == once[k := once[k].(updatedAt := Some(t2))];
  }

  // ---------------------------------------------------------------------------
  // The endpoints, in place on the store
  // ---------------------------------------------------------------------------

  /**
   * Sets the caller's opinion on sample `sampleId`: updates the caller's revision
   * in place or inserts one, and returns the row rendered from the written revision.
   */
  method UpdateAddOpinion(db: Database, user: User, sampleId: string, opinion: string, now: Timestamp)
    returns (res: Result<DataRow, ApiError>)
    requires db.Valid()
    modifies db
    ensures db.Valid()
    ensures db.samples == old(db.samples) && db.principles == old(db.principles)
    ensures FindSample(db.samples, sampleId).None? ==>
      res == Err(SampleNotFound) && db.revisions == old(db.revisions)
    ensures FindSample(db.samples, sampleId).Some? ==>
      var c := FindSample(db.samples, sampleId).value;
      var w := OpinionWrite(old(db.revisions), user.id, c, opinion, now);
      && (w.Err? ==> res == Err(w.error) && db.revisions == old(db.revisions))
      && (w.Ok? ==>
            && db.revisions == w.value
            && RevisionFor(db.revisions, user.id, sampleId).Some?
            && res == Ok(WrittenRow(c, RevisionFor(db.revisions, user.id, sampleId).value, user)))
  {
    var found := FindSample(db.samples, sampleId);
    if found.None? {
      return Err(SampleNotFound);
    }
    var sample := found.value;
    ghost var before := db.revisions;
    var k := FindRevision(db.revisions, user.id, sample.id);
    var revision: Revision;
    if k.Some? {
      revision := db.revisions[k.value].(expertOpinion := Some(opinion), updatedAt := Some(now));
      db.revisions := db.revisions[k.value := revision];
    } else {
      if sample.principleId.None? {
        return Err(PrincipleIdRequired);
      }
      revision := NewRevision(user.id, sample.id, sample.principleId.value).(
        expertOpinion := Some(opinion), isReviseCompleted := false,
        createdAt := Some(now), updatedAt := Some(now));
      db.revisions := db.revisions + [revision];
    }
    assert db.revisions == OpinionWrite(before, user.id, sample, opinion, now).value;
    OpinionWriteKeepsAtMostOne(before, user.id, sample, opinion, now);
    OpinionWriteFound(before, user.id, sample, opinion, now);
    res := Ok(WrittenRow(sample, revision, user));
  }

  /**
   * Sets the caller's completion flag on sample `sampleId`: updates the caller's
   * revision in place or inserts one, and returns the row rendered from it.
   */
  method ToggleSampleRevision(db: Database, user: User, sampleId: string, isRevised: bool, now: Timestamp)
    returns (res: Result<DataRow, ApiError>)
    requires db.Valid()
    modifies db
    ensures db.Valid()
    ensures db.samples == old(db.samples) && db.principles == old(db.principles)
    ensures FindSample(db.samples, sampleId).None? ==>
      res == Err(SampleNotFound) && db.revisions == old(db.revisions)
    ensures FindSample(db.samples, sampleId).Some? ==>
      var c := FindSample(db.samples, sampleId).value;
      var w := CompletionWrite(old(db.revisions), user.id, c, isRevised, now);
      && (w.Err? ==> res == Err(w.error) && db.revisions == old(db.revisions))
      && (w.Ok? ==>
            && db.revisions == w.value
            && RevisionFor(db.revisions, user.id, sampleId).Some?
            && res == Ok(WrittenRow(c, RevisionFor(db.revisions, user.id, sampleId).value, user)))
  {
    var found := FindSample(db.samples, sampleId);
    if found.None? {
      return Err(SampleNotFound);
    }
    var sample := found.value;
    ghost var before := db.revisions;
    var k := FindRevision(db.revisions, user.id, sample.id);
    var revision: Revision;
    if k.Some? {
      revision := db.revisions[k.value].(isReviseCompleted := isRevised, updatedAt := Some(now));
      db.revisions := db.revisions[k.value := revision];
    } else {
      if sample.principleId.None? {
        return Err(PrincipleIdRequired);
      }
      revision := NewRevision(user.id, sample.id, sample.principleId.value).(
        expertOpinion := Some(""), isReviseCompleted := isRevised,
        createdAt := Some(now), updatedAt := Some(now));
      db.revisions := db.revisions + [revision];
    }
    assert db.revisions == CompletionWrite(before, user.id, sample, isRevised, now).value;
    CompletionWriteKeepsAtMostOne(before, user.id, sample, isRevised, now);
    CompletionWriteFound(before, user.id, sample, isRevised, now);
    res := Ok(WrittenRow(sample, revision, user));
  }
}
