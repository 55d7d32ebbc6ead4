/**
 * The stored tables and the lookups the endpoints make in them. Tables are kept in
 * scan order. The revision table has no unique constraint in the store, so "at most
 * one revision per (user, comment)" is an invariant the writers must keep.
 */
module Tables {
  import opened Wrappers
  import opened Models

  /** Revision `r` belongs to user `userId` and comment `commentId`: the join condition. */
  predicate Owns(r: Revision, userId: UserId, commentId: string) {
    r.userId == userId && r.commentId == commentId
  }

  /** Comment ids are a primary key. */
  ghost predicate DistinctSampleIds(samples: seq<Comment>) {
    forall i, j :: 0 <= i < |samples| && 0 <= j < |samples| && samples[i].id == samples[j].id ==> i == j
  }

  /** Principle ids are a primary key. */
  ghost predicate DistinctPrincipleIds(principles: seq<Principle>) {
    forall i, j :: 0 <= i < |principles| && 0 <= j < |principles| && principles[i].id == principles[j].id ==> i == j
  }

  /** No two revisions share a (user, comment) pair. */
  ghost predicate AtMostOne(revs: seq<Revision>) {
    forall i, j :: 0 <= i < |revs| && 0 <= j < |revs| && Owns(revs[j], revs[i].userId, revs[i].commentId) ==> i == j
  }

  /** The comment whose primary key is `id`, if there is one. */
  function FindSample(samples: seq<Comment>, id: string): (r: Option<Comment>)
    ensures r.Some? ==> r.value in samples && r.value.id == id
    ensures r.None? <==> forall c :: c in samples ==> c.id != id
  {
    if |samples| == 0 then None
    else if samples[0].id == id then Some(samples[0])
    else FindSample(samples[1..], id)
  }

  /** The position of the principle whose primary key is `id`, if there is one. */
  function FindPrinciple(principles: seq<Principle>, id: string): (k: Option<nat>)
    ensures k.Some? ==> k.value < |principles| && principles[k.value].id == id
    ensures k.None? <==> forall i :: 0 <= i < |principles| ==> principles[i].id != id
  {
    if |principles| == 0 then None
    else if principles[0].id == id then Some(0)
    else match FindPrinciple(principles[1..], id)
      case None => None
      case Some(k) => Some(k + 1)
  }

  /** The position of the first revision of user `userId` for comment `commentId`, if any. */
  function FindRevision(revs: seq<Revision>, userId: UserId, commentId: string): (k: Option<nat>)
    ensures k.Some? ==> k.value < |revs| && Owns(revs[k.value], userId, commentId)
    ensures k.Some? ==> forall j :: 0 <= j < k.value ==> !Owns(revs[j], userId, commentId)
    ensures k.None? <==> forall j :: 0 <= j < |revs| ==> !Owns(revs[j], userId, commentId)
  {
    if |revs| == 0 then None
    else if Owns(revs[0], userId, commentId) then Some(0)
    else match FindRevision(revs[1..], userId, commentId)
      case None => None
      case Some(k) => Some(k + 1)
  }

  /** The join finds position `k` when `k` holds the pair's first revision. */
  lemma FirstOwnedAt(revs: seq<Revision>, userId: UserId, commentId: string, k: nat)
    requires k < |revs| && Owns(revs[k], userId, commentId)
    requires forall j :: 0 <= j < k ==> !Owns(revs[j], userId, commentId)
    ensures FindRevision(revs, userId, commentId) == Some(k)
  {
  }

  /** The caller's revision of a comment: the outer join restricted to `user_id = userId`. */
  function RevisionFor(revs: seq<Revision>, userId: UserId, commentId: string): (r: Option<Revision>)
    ensures r.Some? ==> r.value in revs && Owns(r.value, userId, commentId)
    ensures r.None? <==> forall x :: x in revs ==> !Owns(x, userId, commentId)
  {
    match FindRevision(revs, userId, commentId)
    case None => None
    case Some(k) => Some(revs[k])
  }

  /**
   * Under the invariant the join is determined: any revision of the pair is the one
   * found, so taking the first match equals the store's join row.
   */
  lemma RevisionForUnique(revs: seq<Revision>, x: Revision, userId: UserId, commentId: string)
    requires AtMostOne(revs) && x in revs && Owns(x, userId, commentId)
    ensures RevisionFor(revs, userId, commentId) == Some(x)
  {
    var i :| 0 <= i < |revs| && revs[i] == x;
    var k := FindRevision(revs, userId, commentId).value;
    assert Owns(revs[k], revs[i].userId, revs[i].commentId);
  }

  /** The revisions of user `userId`, in table order. */
  function OwnedBy(revs: seq<Revision>, userId: UserId): (r: seq<Revision>)
    ensures |r| <= |revs|
    ensures forall x :: x in r <==> x in revs && x.userId == userId
  {
    if |revs| == 0 then []
    else (if revs[0].userId == userId then [revs[0]] else []) + OwnedBy(revs[1..], userId)
  }

  /** The join looks at the table front to back. */
  lemma RevisionForFirst(revs: seq<Revision>, userId: UserId, commentId: string)
    requires |revs| > 0
    ensures RevisionFor(revs, userId, commentId) ==
      if Owns(revs[0], userId, commentId) then Some(revs[0]) else RevisionFor(revs[1..], userId, commentId)
  {
  }

  /** What the join finds for a user depends on that user's own revisions only. */
  lemma {:induction false} RevisionForOwnOnly(revs: seq<Revision>, userId: UserId, commentId: string)
    ensures RevisionFor(OwnedBy(revs, userId), userId, commentId) == RevisionFor(revs, userId, commentId)
  {
    if |revs| > 0 {
      RevisionForOwnOnly(revs[1..], userId, commentId);
      RevisionForFirst(revs, userId, commentId);
      var rest := OwnedBy(revs[1..], userId);
      if revs[0].userId == userId {
        var own := [revs[0]] + rest;
        assert own[1..] == rest;
        RevisionForFirst(own, userId, commentId);
      } else {
        assert OwnedBy(revs, userId) == rest;
      }
    }
  }

  /** Two tables that hold the same revisions of `userId` give that user the same join. */
  lemma SameOwnRevisionsSameJoin(revs: seq<Revision>, revs': seq<Revision>, userId: UserId, commentId: string)
    requires OwnedBy(revs, userId) == OwnedBy(revs', userId)
    ensures RevisionFor(revs, userId, commentId) == RevisionFor(revs', userId, commentId)
  {
    RevisionForOwnOnly(revs, userId, commentId);
    RevisionForOwnOnly(revs', userId, commentId);
  }

  /** Replacing a revision that another user owns, by one that user owns, leaves `userId`'s revisions alone. */
  lemma {:induction false} OwnedByUpdate(revs: seq<Revision>, k: nat, x: Revision, userId: UserId)
    requires k < |revs| && revs[k].userId != userId && x.userId != userId
    ensures OwnedBy(revs[k := x], userId) == OwnedBy(revs, userId)
  {
    if k > 0 {
      OwnedByUpdate(revs[1..], k - 1, x, userId);
      assert revs[k := x][1..] == revs[1..][k - 1 := x];
    } else {
      assert revs[k := x][1..] == revs[1..];
    }
  }

  /** Appending another user's revision leaves `userId`'s revisions alone. */
  lemma {:induction false} OwnedByAppend(revs: seq<Revision>, x: Revision, userId: UserId)
    requires x.userId != userId
    ensures OwnedBy(revs + [x], userId) == OwnedBy(revs, userId)
  {
    if |revs| == 0 {
      assert ([x])[1..] == [];
    } else {
      OwnedByAppend(revs[1..], x, userId);
      assert (revs + [x])[1..] == revs[1..] + [x];
    }
  }

  /** Replacing a revision by one with the same owner and comment keeps the invariant. */
  lemma AtMostOneAfterUpdate(revs: seq<Revision>, k: nat, x: Revision)
    requires AtMostOne(revs) && k < |revs|
    requires x.userId == revs[k].userId && x.commentId == revs[k].commentId
    ensures AtMostOne(revs[k := x])
  {
    var revs' := revs[k := x];
    forall i, j | 0 <= i < |revs'| && 0 <= j < |revs'| && Owns(revs'[j], revs'[i].userId, revs'[i].commentId)
      ensures i == j
    {
      assert Owns(revs[j], revs[i].userId, revs[i].commentId);
    }
  }

  /** Appending a revision for a pair that has none keeps the invariant. */
  lemma AtMostOneAfterInsert(revs: seq<Revision>, x: Revision)
    requires AtMostOne(revs)
    requires forall j :: 0 <= j < |revs| ==> !Owns(revs[j], x.userId, x.commentId)
    ensures AtMostOne(revs + [x])
  {
    var revs' := revs + [x];
    forall i, j | 0 <= i < |revs'| && 0 <= j < |revs'| && Owns(revs'[j], revs'[i].userId, revs'[i].commentId)
      ensures i == j
    {
      if i < |revs| && j < |revs| {
        assert Owns(revs[j], revs[i].userId, revs[i].commentId);
      }
    }
  }

  /**
   * The store: the comment and principle tables loaded in bulk, and the revision
   * table the reviewers write. Only the principle and revision tables change here.
   */
  class Database {
    var samples: seq<Comment>
    var principles: seq<Principle>
    var revisions: seq<Revision>

    /** Primary keys are distinct and each (user, comment) has at most one revision. */
    ghost predicate Valid()
      reads this
    {
      DistinctSampleIds(samples) && DistinctPrincipleIds(principles) && AtMostOne(revisions)
    }

    /** A store holding the given tables. */
    constructor (samples: seq<Comment>, principles: seq<Principle>, revisions: seq<Revision>)
      requires DistinctSampleIds(samples) && DistinctPrincipleIds(principles) && AtMostOne(revisions)
      ensures Valid()
      ensures this.samples == samples && this.principles == principles && this.revisions == revisions
    {
      this.samples := samples;
      this.principles := principles;
      this.revisions := revisions;
    }
  }
}
