/**
 * The two meanings of "revised". The single-sample read calls a sample revised when
 * the caller's revision is marked completed; the per-principle listing calls it
 * revised when the caller's revision carries any opinion. Marking a sample as not
 * completed creates a revision with an empty opinion, so the two disagree.
 */
module RevisedStatus {
  import opened Wrappers
  import opened Models
  import opened Common
  import opened Tables
  import opened Samples
  import opened Principles

  /**
   * When the caller has no revision of comment `c` and sets its completion flag to
   * false, the sample read reports it as not revised, while the listing of its
   * principle reports it as revised and counts it in the statistics.
   */
  lemma CompletionFalseListedAsRevised(samples: seq<Comment>, revs: seq<Revision>, user: User,
                                       c: Comment, now: Timestamp)
    requires FindSample(samples, c.id) == Some(c)
    requires c.principleId.Some?
    requires RevisionFor(revs, user.id, c.id).None?
    ensures var w := CompletionWrite(revs, user.id, c, false, now);
      && w.Ok?
      && GetSample(samples, w.value, user, c.id).Ok?
      && !GetSample(samples, w.value, user, c.id).value.isRevised
      && var rows := PrincipleRows(samples, w.value, user, c.principleId.value);
      && ListingRow(c, RevisionFor(w.value, user.id, c.id), user) in rows
      && ListingRow(c, RevisionFor(w.value, user.id, c.id), user).isRevised
      && Stats(rows).revised > 0
  {
    assert FindRevision(revs, user.id, c.id).None?;
    var w := CompletionWrite(revs, user.id, c, false, now);
    var revs' := w.value;
    CompletionWriteFound(revs, user.id, c, false, now);
    assert RevisionFor(revs', user.id, c.id) == Some(revs'[|revs|]);
    assert revs'[|revs|].expertOpinion == Some("");
    var row := ListingRow(c, RevisionFor(revs', user.id, c.id), user);
    assert row.isRevised;
    CompletionReadBack(samples, revs, user, c, false, now);
    assert c in samples;
    ListedComment(samples, revs', user, c);
    var rows := PrincipleRows(samples, revs', user, c.principleId.value);
    assert Stats(rows).revised == CountRevised(rows);
  }

  /**
   * A one-sample store: after the caller marks the sample as not completed, the
   * sample read says not revised, but the listing counts it as revised and the
   * listing that hides revised rows hides it.
   */
  lemma OneSampleExample()
    ensures var c := NewComment("s1", "text", 0, 0, 0, Some("p1"));
      var user := User("u1", None);
      var w := CompletionWrite([], user.id, c, false, 7);
      && w.Ok?
      && GetSample([c], w.value, user, "s1").Ok?
      && !GetSample([c], w.value, user, "s1").value.isRevised
      && SamplesByPrinciple(PrincipleRows([c], w.value, user, "p1"), true).stats == SampleStats(1, 1, 100.0)
      && SamplesByPrinciple(PrincipleRows([c], w.value, user, "p1"), false).samples == []
  {
    var c := NewComment("s1", "text", 0, 0, 0, Some("p1"));
    var user := User("u1", None);
    CompletionFalseListedAsRevised([c], [], user, c, 7);
    var w := CompletionWrite([], user.id, c, false, 7);
    var rows := PrincipleRows([c], w.value, user, "p1");
    assert |rows| == 1 by {
      assert OfPrinciple([c], "p1") == [c] by {
        assert [c][..0] == [];
      }
    }
    assert Percentage(1, 1) == 100.0;
  }
}
