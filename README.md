# Per-user revision overlay of an annotation-review backend

Experts review machine-classified text samples ("comments") against a fixed
set of labelling principles. The corpus of comments and principles is shared.
Each reviewer annotates it through their own revision records, one per
(user, comment): an optional expert opinion and a completion flag. These
records are laid over the corpus when it is read and are never merged back
into it.

This project models that overlay in Dafny:

- **Resolver.** The single-sample read (`Samples.GetSample`) and the
  per-principle listing (`Principles.PrincipleRows`, built by the loop in
  `Principles.PrincipleCommentsWithRevisionStatus`). Each joins a comment with
  the caller's own revision only, and applies defaults when there is none.
- **Writers.** The opinion upsert (`Samples.UpdateAddOpinion`) and the
  completion upsert (`Samples.ToggleSampleRevision`). Each looks the revision up
  by (user, comment), updates it in place or appends a new record, and returns
  the row rendered from what it wrote. `Samples.OpinionWrite` and
  `Samples.CompletionWrite` specify both as functions on the revision table.
- **Aggregation.** `Principles.SamplesByPrinciple` computes total, revised
  and percentage, and optionally hides revised rows. The statistics always
  cover all rows.
- **Principle editor.** `Principles.UpdatePrinciple` merges into one
  principle only the fields a request supplies. `Principles.ListPrinciples`
  lists the principles.

The store is a class, `Tables.Database`, with three tables held as sequences
in scan order: comments, principles and revisions. The revision table has no
unique constraint in the store. So "at most one revision per (user, comment)"
(`Tables.AtMostOne`) is part of `Database.Valid()`, and both writers are
proved to keep it. The request's clock reading is the parameter `now`; the
authenticated caller is the parameter `user` (its id and optional full name).

Modules, one per file: `Wrappers` (Option, Result), `Models` (app/models.py),
`Common` (the shared view row and the errors), `Tables` (lookups, the
invariant, the store), `Samples` (app/api/routes/samples.py), `Principles`
(app/api/routes/principles.py), and `RevisedStatus` (where the two endpoints
disagree).

Record shapes (app/models.py). `Models.Principle` has a string key and
required `name` and `definition`; `contextRule`, `inclusionCriteria` and
`exclusionCriteria` are nullable. `Models.Comment` has a string key, required
`target` and three required integer scores; its context spans, machine texts
and principle are nullable. `Models.Revision` has an owner, a comment and a
required principle id; its opinion and timestamps are nullable. `Models.User`
has an optional `fullName`.

Where the route files and the table class disagree, or the two route files disagree with each other, the model follows the routes as written:

- Revision record. The routes read and write a completion flag
  `is_revise_completed` that the revision table class does not declare. The
  model adds it to `Models.Revision` as a boolean that defaults to false.
- Two meanings of "revised". The sample read takes `is_revised` from the
  completion flag. The per-principle listing takes it from "the opinion is not
  null". A completion toggle on a fresh sample stores the empty opinion `""`.
  So a sample marked *not* completed is counted as revised by the listing
  (`RevisedStatus.CompletionFalseListedAsRevised`,
  `RevisedStatus.OneSampleExample`). Both definitions are modelled as written.
- Read timestamps. Both read paths report the revision's `created_at` as its
  timestamp. Only the writers' responses use `updated_at`, falling back to
  `created_at`. `Samples.OpinionReadBack` and `Samples.CompletionReadBack`
  show that a read after a write matches the write's response except for
  that timestamp.
- Missing principle. A revision's `principle_id` is a required column, but a
  comment's `principle_id` is nullable. A first write for a comment with no
  principle therefore cannot be stored. In the source the store rejects the
  record with an error raised at `session.commit()`
  (app/api/routes/samples.py:130, 199). The model represents that failure as
  the error value `PrincipleIdRequired` and leaves the table unchanged.

## Model

| member | source | states |
|---|---|---|
| `Models.NewPrinciple` | app/models.py:82-88 | a principle built from id, name and definition has null context rule and null criteria |
| `Models.NewComment` | app/models.py:94-106 | a comment built from its required fields has null context spans, null machine texts and the given nullable principle |
| `Models.NewRevision` | app/models.py:37-44 | a fresh revision has the given owner, comment and principle, no opinion, is not completed and has null timestamps |
| `Tables.FindSample` | app/api/routes/samples.py:42 | finds a stored comment with the requested id; not found exactly when no stored comment has that id |
| `Tables.FindPrinciple` | app/api/routes/principles.py:77 | finds the position of the principle with the requested id; not found exactly when none has it |
| `Tables.FindRevision` | app/api/routes/samples.py:43-47 | the first revision whose owner is the caller and whose comment is the requested one; none exactly when no revision matches both |
| `Tables.RevisionFor` | app/api/routes/samples.py:43-47 | the caller's revision of a comment is a stored revision owned by the caller for that comment; absent exactly when there is none |
| `Tables.RevisionForUnique` | app/api/routes/samples.py:43-47 | under at most one revision per (user, comment), the first-match lookup gives exactly the stored revision of that pair, as the SQL join does |
| `Tables.RevisionForOwnOnly` | app/api/routes/samples.py:43-47 | the join gives the same result on the caller's own revisions alone as on the whole table |
| `Tables.AtMostOneAfterUpdate` | app/api/routes/samples.py:114-117 | replacing a revision by one with the same owner and comment keeps at most one revision per (user, comment) |
| `Tables.AtMostOneAfterInsert` | app/api/routes/samples.py:118-128 | appending a revision for a (user, comment) that has none keeps at most one revision per pair |
| `Samples.ReadRow` | app/api/routes/samples.py:34-75 | the read row shows the comment unchanged; without a revision: no opinion, not revised, no reviser, no timestamp; with one: its opinion and completion flag, the caller's name and its `created_at` |
| `Samples.GetSample` | app/api/routes/samples.py:24-77 | not found exactly when no comment has the id; otherwise the row shows that comment joined with the caller's revision, with the defaults when the caller has none |
| `Samples.GetSampleOnlyOwnRevisions` | app/api/routes/samples.py:43-47 | the read is the same on the caller's revisions alone as on the whole table: other users' revisions never show |
| `Samples.WrittenRow` | app/api/routes/samples.py:133-148 | the writers' row shows the comment unchanged, the written opinion and flag, the caller's name, and `updated_at`, falling back to `created_at` |
| `Samples.OpinionWrite` | app/api/routes/samples.py:110-128 | an existing revision gets the opinion and `updated_at = now`; its flag, owner, comment, principle and `created_at` are kept and every other record is unchanged; otherwise exactly one record is appended with the caller, the comment, its principle, the opinion, not completed, created and updated at `now`; a comment without principle yields `PrincipleIdRequired` |
| `Samples.CompletionWrite` | app/api/routes/samples.py:179-197 | an existing revision gets the flag and `updated_at = now`; its opinion, owner, comment, principle and `created_at` are kept and every other record is unchanged; otherwise exactly one record is appended with opinion `""` and the requested flag, created and updated at `now`; a comment without principle yields `PrincipleIdRequired` |
| `Samples.OpinionWriteFound` | app/api/routes/samples.py:114-131 | after an opinion write the caller's revision of the comment is the updated one, or else the appended one; it carries the new opinion and `updated_at = now` |
| `Samples.CompletionWriteFound` | app/api/routes/samples.py:183-200 | after a completion write the caller's revision of the comment is the updated one, or else the appended one; it carries the requested flag and `updated_at = now` |
| `Samples.OpinionWriteKeepsAtMostOne` | app/api/routes/samples.py:114-128 | the opinion upsert preserves at most one revision per (user, comment) |
| `Samples.CompletionWriteKeepsAtMostOne` | app/api/routes/samples.py:183-197 | the completion upsert preserves at most one revision per (user, comment) |
| `Samples.OpinionWriteKeepsOthers` | app/api/routes/samples.py:114-128 | the opinion upsert leaves every other user's revisions exactly as they were |
| `Samples.CompletionWriteKeepsOthers` | app/api/routes/samples.py:183-197 | the completion upsert leaves every other user's revisions exactly as they were |
| `Samples.OpinionIsolation` | app/api/routes/samples.py:95-103 | after one user sets an opinion, another user's read of every sample is unchanged |
| `Samples.CompletionIsolation` | app/api/routes/samples.py:164-172 | after one user toggles completion, another user's read of every sample is unchanged |
| `Samples.OpinionReadBack` | app/api/routes/samples.py:133-148 | setting an opinion and then reading the sample shows that opinion; the read equals the write's response except for the timestamp |
| `Samples.CompletionReadBack` | app/api/routes/samples.py:202-217 | toggling completion and then reading the sample shows the flag as `is_revised`; the read equals the write's response except for the timestamp |
| `Samples.OpinionWriteTwice` | app/api/routes/samples.py:95-128 | a second opinion write for the same (user, comment) adds no record and leaves the second opinion visible |
| `Samples.CompletionWriteTwice` | app/api/routes/samples.py:164-197 | repeating a completion toggle with the same value changes only `updated_at` of the caller's record |
| `Samples.UpdateAddOpinion` | app/api/routes/samples.py:84-150 | unknown sample: not found, tables unchanged; otherwise the revision table becomes `OpinionWrite` of the old one, or stays unchanged with its error; comments and principles untouched; the invariant is kept; the response is `WrittenRow` of the caller's stored revision |
| `Samples.ToggleSampleRevision` | app/api/routes/samples.py:157-218 | unknown sample: not found, tables unchanged; otherwise the revision table becomes `CompletionWrite` of the old one, or stays unchanged with its error; comments and principles untouched; the invariant is kept; the response is `WrittenRow` of the caller's stored revision |
| `Principles.Schema` | app/api/routes/principles.py:51-57 | a listed principle keeps id and definition, shows `name` as `labelName`, and renders null criteria as `""` |
| `Principles.ListPrinciples` | app/api/routes/principles.py:43-60 | one schema entry per stored principle, in order |
| `Principles.Merge` | app/api/routes/principles.py:84-91 | each field the request supplies is assigned; each field it leaves null keeps its stored value; id and context rule are kept |
| `Principles.MergeNothing` | app/api/routes/principles.py:84-91 | an all-null request leaves the principle unchanged |
| `Principles.MergeIdempotent` | app/api/routes/principles.py:84-91 | applying the same request twice equals applying it once |
| `Principles.UpdatePrinciple` | app/api/routes/principles.py:66-103 | unknown id: not found and nothing changes; otherwise only that principle is replaced by its merge with the request, and its schema is returned; comments and revisions untouched; distinct ids kept |
| `Principles.ListingRow` | app/api/routes/principles.py:161-180 | a listing row shows the comment unchanged and the caller's opinion; it is revised iff that opinion is not null; its timestamp is absent iff there is no revision or no `created_at` |
| `Principles.OfPrinciple` | app/api/routes/principles.py:142 | a comment is selected iff it is stored and its principle is the requested one; a one-comment table gives itself or nothing |
| `Principles.OfPrincipleAppend` | app/api/routes/principles.py:142 | selecting from two tables in turn equals selecting from their concatenation, so the selection keeps table order and multiplicity |
| `Principles.PrincipleRows` | app/api/routes/principles.py:131-182 | one row per comment of the principle, in order, each the listing row of that comment joined with the caller's own revision |
| `Principles.PrincipleRowsOnlyOwnRevisions` | app/api/routes/principles.py:143-147 | the listing is the same on the caller's revisions alone as on the whole table |
| `Principles.ListedComment` | app/api/routes/principles.py:142-147 | every stored comment of the principle appears in its listing, joined with the caller's revision |
| `Principles.PrincipleCommentsWithRevisionStatus` | app/api/routes/principles.py:131-182 | the loop over the comment table builds exactly `PrincipleRows` |
| `Principles.CountRevised` | app/api/routes/principles.py:197 | the revised count is at most the number of rows, and zero iff no row is revised |
| `Principles.Unrevised` | app/api/routes/principles.py:203 | keeps exactly the rows that are not revised; its length plus the revised count is the number of rows |
| `Principles.OneRow` | app/api/routes/principles.py:197-203 | one row counts 1 iff it is revised, and the filter keeps it iff it is not |
| `Principles.CountRevisedAppend` | app/api/routes/principles.py:197 | the revised count of two listings concatenated is the sum of their counts |
| `Principles.UnrevisedAppend` | app/api/routes/principles.py:203 | filtering two listings concatenated is the concatenation of their filters, so the filter keeps the original order |
| `Principles.Percentage` | app/api/routes/principles.py:198 | zero when there are no rows; otherwise percentage × total = revised × 100; never negative and at most 100 when revised ≤ total |
| `Principles.Stats` | app/api/routes/principles.py:196-201 | total is the number of rows, revised the revised count, 0 ≤ revised ≤ total, percentage in [0, 100], all zero for an empty listing |
| `Principles.SamplesByPrinciple` | app/api/routes/principles.py:196-207 | statistics describe all rows; with `showRevised` every row is returned, without it exactly the unrevised rows, so the row count is total − revised |
| `Principles.OneOfFourRevised` | app/api/routes/principles.py:196-205 | four rows with one revised give 25 percent; hiding revised rows returns three rows while the total stays four |
| `Principles.GetSamplesByPrinciple` | app/api/routes/principles.py:185-207 | the endpoint's response is `SamplesByPrinciple` of the caller's listing of the principle; `showRevised` defaults to true |
| `RevisedStatus.CompletionFalseListedAsRevised` | app/api/routes/principles.py:174 | a first completion toggle to false makes the read report "not revised"; the principle listing shows the same sample as revised and counts it |
| `RevisedStatus.OneSampleExample` | app/api/routes/samples.py:188-197 | in a one-sample store, after marking the sample not completed: the read says not revised, the listing reports 1 of 1 revised (100 percent), and hiding revised rows hides it |

## Left out

- HTTP layer: routing, request and response validation, and status codes. Not-found is an `Err` value.
- Database mechanics: session add, commit and refresh. The SQL outer join is a lookup in the revision sequence.
- SQL row order: the queries have no `ORDER BY`. The model lists rows in table order.
- Duplicate join rows: with more than one revision for a (user, comment), the SQL join would yield duplicates. The model takes the first matching revision. Under the invariant the model keeps there is only one, and `Tables.RevisionForUnique` shows the lookup then returns exactly it.
- Authentication and authorization: the caller is the parameter `user`.
- The revision's surrogate UUID key, user e-mail, activity and superuser flags, and passwords: the core does not read them.
- The clock: `datetime.now` is the parameter `now`.
- Principles.Percentage: exact rational value, not rounded to two decimals, since floating point is out.
- ISO-8601 rendering of the listing timestamp: timestamps stay numbers.
- app/initial_data.py: JSON loading, logging and bulk merge. `Tables.Database` is constructed from given tables instead.
- Unused model classes: `UserCreate`, `UserUpdate`, `UserUpdateMe`, `UpdatePassword`, `Token`, `TokenPayload`, `NewPassword`, `PasswordResetToken`, `PrincipleUpdate`, `CommentUpdate`, `Message`.
- The view-row class is defined in app/api/routes/common.py, which is not part of this model. Its fields are taken from the constructor calls in the two route files. The listing builds its rows with the keys `isRevised`, `reviserName` and `revisionTimestamp`. The model assumes these fill the same fields as the single-sample read's `is_revised`, `reviser_name` and `revision_timestamp`.
- Foreign-key checks and not-null checks of the store, apart from the not-null `principle_id` column of a revision.
- Concurrency: two concurrent upserts could both insert. The model is sequential and proves only that each single upsert keeps the invariant.
