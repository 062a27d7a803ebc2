/**
 * Reviewing a whole pull request: choose the files worth reviewing, review
 * them, keep the comments GitHub will accept, submit the review and announce
 * it.
 *
 * GitHub and Slack are not called: the method returns, in order, the calls it
 * makes to them. Both calls are made whatever the other one does, and an
 * exception from either is logged and dropped by the source, so neither can
 * change the result. Fetching the pull request and its files happens before
 * this model starts (`pr` and `files` are inputs), and the review of one file
 * (the tool-calling model of `Graph.ReviewSingleFile`) is the input
 * `reviewFile`.
 */
module Service {
  import opened Text
  import opened Entities
  import opened PatchParser
  import opened Graph

  /** The pull request's metadata that the review reads. The title, author and URL reach the notification.
      The body and head ref are passed to the per-file review, which `reviewFile` abstracts, so the model never reads them. */
  datatype PullRequest = PullRequest(title: string, body: string, headRef: string, author: string, htmlUrl: string)

  /** The dict `review_pull_request` returns. */
  datatype ReviewResult = ReviewResult(success: bool, pr: string, filesReviewed: nat, comments: nat, summary: string)

  /** A call to an outside service. */
  datatype Call =
    | SubmitReview(
        owner: string, repo: string, prNumber: int, body: string,
        comments: seq<Comment>, invalidComments: seq<Comment>, event: string)
    | SendReviewNotification(
        owner: string, repo: string, prNumber: int, prTitle: string, prAuthor: string,
        summary: string, commentsCount: nat, prUrl: string)

  const NoReviewableChanges: string := "No reviewable changes found."
  /** How much of the overall summary the notification carries. */
  const NotificationSummaryChars: nat := 500

  /** `f"{owner}/{repo}#{pr_number}"`. */
  function PrLabel(owner: string, repo: string, prNumber: int): string {
    owner + "/" + repo + "#" + IntToDecimal(prNumber)
  }

  /** The files that carry a patch, in their original order. */
  function WithPatch(files: seq<ChangedFile>): seq<ChangedFile> {
    if files == [] then []
    else
      var last := files[|files| - 1];
      WithPatch(files[..|files| - 1]) + if last.patch != "" then [last] else []
  }

  /** The files with a patch, cut down to `maxFilesPerReview` when there are
      more (a negative setting slices as Python does). */
  function ReviewableFiles(files: seq<ChangedFile>, maxFilesPerReview: int): seq<ChangedFile> {
    var withPatch := WithPatch(files);
    if |withPatch| > maxFilesPerReview then SliceTo(withPatch, maxFilesPerReview) else withPatch
  }

  /** `{f["filename"]: f["patch"] for f in files}`: a later file with the
      same name overwrites an earlier one. */
  function Patches(files: seq<ChangedFile>): map<string, string> {
    if files == [] then map[]
    else
      var last := files[|files| - 1];
      Patches(files[..|files| - 1])[last.filename := last.patch]
  }

  /** What reviewing each file gives, file by file. */
  function Outcomes(files: seq<ChangedFile>, reviewFile: ChangedFile -> FileOutcome): (r: seq<FileOutcome>)
    ensures |r| == |files|
  {
    seq(|files|, k requires 0 <= k < |files| => reviewFile(files[k]))
  }

  /** `review_pull_request`. */
  method ReviewPullRequest(
    owner: string, repo: string, prNumber: int, pr: PullRequest, files: seq<ChangedFile>,
    maxFilesPerReview: int, reviewFile: ChangedFile -> FileOutcome, synthesize: seq<string> -> string)
    returns (result: ReviewResult, calls: seq<Call>)
    ensures result.success && result.pr == PrLabel(owner, repo, prNumber)
    ensures ReviewableFiles(files, maxFilesPerReview) == [] ==>
      && result == ReviewResult(true, PrLabel(owner, repo, prNumber), 0, 0, NoReviewableChanges)
      && calls == []
    ensures
      var reviewable := ReviewableFiles(files, maxFilesPerReview);
      var successes := Successes(Outcomes(reviewable, reviewFile));
      var allComments := Flatten(successes);
      var summary := GenerateSummary(LinesOf(successes), synthesize);
      var patches := Patches(reviewable);
      reviewable != [] ==>
        && result.filesReviewed == |reviewable|
        && result.comments == |allComments|
        && result.summary == summary
        && calls == [
          SubmitReview(owner, repo, prNumber, summary,
            CommentsWhere(allComments, patches, true), CommentsWhere(allComments, patches, false), "COMMENT"),
          SendReviewNotification(owner, repo, prNumber, pr.title, pr.author,
            SliceTo(summary, NotificationSummaryChars), |allComments|, pr.htmlUrl)]
  {
    var prLabel := PrLabel(owner, repo, prNumber);
    var reviewable := WithPatch(files);
    if |reviewable| > maxFilesPerReview {
      reviewable := SliceTo(reviewable, maxFilesPerReview);
    }
    if reviewable == [] {
      return ReviewResult(true, prLabel, 0, 0, NoReviewableChanges), [];
    }
    var allComments, overallSummary := ReviewFilesParallel(Outcomes(reviewable, reviewFile), synthesize);
    var patches := Patches(reviewable);
    var valid, invalid := FilterCommentsByValidLines(allComments, patches);
    calls := [
      SubmitReview(owner, repo, prNumber, overallSummary, valid, invalid, "COMMENT"),
      SendReviewNotification(owner, repo, prNumber, pr.title, pr.author,
        SliceTo(overallSummary, NotificationSummaryChars), |allComments|, pr.htmlUrl)];
    result := ReviewResult(true, prLabel, |reviewable|, |allComments|, overallSummary);
  }

  // ---------------------------------------------------------------------------
  // Properties
  // ---------------------------------------------------------------------------

  /** A file is kept iff it has a patch; the filter keeps order. */
  lemma {:induction false} WithPatchMembers(files: seq<ChangedFile>, f: ChangedFile)
    ensures f in WithPatch(files) <==> f in files && f.patch != ""
  {
    if files != [] {
      var init := files[..|files| - 1];
      WithPatchMembers(init, f);
      assert files == init + [files[|files| - 1]];
    }
  }

  lemma {:induction false} WithPatchAppend(a: seq<ChangedFile>, b: seq<ChangedFile>)
    ensures WithPatch(a + b) == WithPatch(a) + WithPatch(b)
    decreases |b|
  {
    if b == [] {
      assert a + b == a;
    } else {
      var initB := b[..|b| - 1];
      assert (a + b)[..|a + b| - 1] == a + initB;
      WithPatchAppend(a, initB);
    }
  }

  /** The reviewed files are a prefix of the files with a patch, never more
      than the setting allows (when it is not negative), and all of them when
      they fit. */
  lemma ReviewableFilesProperties(files: seq<ChangedFile>, maxFilesPerReview: int)
    ensures var reviewable := ReviewableFiles(files, maxFilesPerReview);
      && reviewable == WithPatch(files)[..|reviewable|]
      && (maxFilesPerReview >= 0 ==> |reviewable| <= maxFilesPerReview)
      && (|WithPatch(files)| <= maxFilesPerReview ==> reviewable == WithPatch(files))
      && (0 <= maxFilesPerReview < |WithPatch(files)| ==> |reviewable| == maxFilesPerReview)
      && (maxFilesPerReview < 0 ==>
            |reviewable| == if |WithPatch(files)| + maxFilesPerReview >= 0 then |WithPatch(files)| + maxFilesPerReview else 0)
      && forall k | 0 <= k < |reviewable| :: reviewable[k].patch != "" && reviewable[k] in files
  {
    var withPatch := WithPatch(files);
    var reviewable := ReviewableFiles(files, maxFilesPerReview);
    forall k | 0 <= k < |reviewable| ensures reviewable[k].patch != "" && reviewable[k] in files {
      assert reviewable[k] == withPatch[k];
      WithPatchMembers(files, withPatch[k]);
    }
  }

  /** The keys of the patch map are exactly the names of the files. */
  lemma {:induction false} PatchKeys(files: seq<ChangedFile>, name: string)
    ensures name in Patches(files) <==> exists k | 0 <= k < |files| :: files[k].filename == name
  {
    if files != [] {
      var init := files[..|files| - 1];
      PatchKeys(init, name);
      if name in Patches(init) {
        var k :| 0 <= k < |init| && init[k].filename == name;
        assert files[k] == init[k];
      }
      if exists k | 0 <= k < |files| :: files[k].filename == name {
        var k :| 0 <= k < |files| && files[k].filename == name;
        if k < |init| {
          assert init[k] == files[k];
        }
      }
    }
  }

  /** A name maps to the patch of the last file that carries it. */
  lemma {:induction false} PatchOfLastFile(files: seq<ChangedFile>, k: int)
    requires 0 <= k < |files| && LastWithName(files, k)
    ensures files[k].filename in Patches(files) && Patches(files)[files[k].filename] == files[k].patch
  {
    var init := files[..|files| - 1];
    if k < |init| {
      assert files[k] == init[k];
      assert LastWithName(init, k) by {
        forall j | k < j < |init| ensures init[j].filename != init[k].filename {
          assert init[j] == files[j];
        }
      }
      PatchOfLastFile(init, k);
    }
  }

  /** No later file has the same name as `files[k]`. */
  predicate LastWithName(files: seq<ChangedFile>, k: int)
    requires 0 <= k < |files|
  {
    forall j | k < j < |files| :: files[j].filename != files[k].filename
  }

  /** Every submitted inline comment sits on a line the patch of one of the
      reviewed files may carry a comment on; the submitted and the refused
      comments together are the generated ones. */
  lemma SubmittedCommentsAreAnchored(reviewable: seq<ChangedFile>, allComments: seq<Comment>)
    ensures var valid := CommentsWhere(allComments, Patches(reviewable), true);
      forall c | c in valid :: c.line.Some? && exists k | 0 <= k < |reviewable| ::
        && reviewable[k].filename == c.path
        && c.line.value in PatchLineSet(reviewable[k].patch)
    ensures |CommentsWhere(allComments, Patches(reviewable), true)|
          + |CommentsWhere(allComments, Patches(reviewable), false)| == |allComments|
  {
    var patches := Patches(reviewable);
    PartitionIsTotal(allComments, patches);
    forall c | c in CommentsWhere(allComments, patches, true)
      ensures c.line.Some? && exists k | 0 <= k < |reviewable| ::
        reviewable[k].filename == c.path && c.line.value in PatchLineSet(reviewable[k].patch)
    {
      CommentsWhereMembers(allComments, patches, true, c);
      PatchKeys(reviewable, c.path);
      var k := LastIndexWithName(reviewable, c.path);
      PatchOfLastFile(reviewable, k);
      assert c.line.value in PatchLineSet(reviewable[k].patch);
    }
  }

  /** The index of the last file named `name`. */
  lemma LastIndexWithName(files: seq<ChangedFile>, name: string) returns (k: int)
    requires exists i | 0 <= i < |files| :: files[i].filename == name
    ensures 0 <= k < |files| && files[k].filename == name && LastWithName(files, k)
  {
    k := |files| - 1;
    while files[k].filename != name
      invariant 0 <= k < |files|
      invariant exists i | 0 <= i <= k :: files[i].filename == name
      invariant forall j | k < j < |files| :: files[j].filename != name
      decreases k
    {
      k := k - 1;
    }
  }

  /** A pull request where no file carries a patch is answered without any
      review or call, whatever the setting. */
  lemma NoPatchNoReview(files: seq<ChangedFile>, maxFilesPerReview: int)
    requires forall k | 0 <= k < |files| :: files[k].patch == ""
    ensures ReviewableFiles(files, maxFilesPerReview) == []
  {
    if WithPatch(files) != [] {
      var f := WithPatch(files)[0];
      WithPatchMembers(files, f);
      assert false;
    }
  }

  /** With `review_single_file` as written every reviewable file fails, so the
      review is submitted with no inline comment, none is refused, and its
      body is the no-files summary, whatever the pull request changes. */
  lemma EveryFileFailsAsWritten(files: seq<ChangedFile>, maxFilesPerReview: int, synthesize: seq<string> -> string)
    ensures var reviewable := ReviewableFiles(files, maxFilesPerReview);
      var successes := Successes(Outcomes(reviewable, (f: ChangedFile) => ReviewSingleFileAsWritten(f.filename)));
      && Flatten(successes) == []
      && GenerateSummary(LinesOf(successes), synthesize) == NoFilesSummary
      && CommentsWhere(Flatten(successes), Patches(reviewable), true) == []
      && CommentsWhere(Flatten(successes), Patches(reviewable), false) == []
  {
    var reviewable := ReviewableFiles(files, maxFilesPerReview);
    var outcomes := Outcomes(reviewable, (f: ChangedFile) => ReviewSingleFileAsWritten(f.filename));
    AllFailedNoSuccesses(outcomes);
  }

  /** The notification carries the first 500 characters of the summary. */
  lemma NotificationSummaryIsPrefix(summary: string)
    ensures var s := SliceTo(summary, NotificationSummaryChars);
      && |s| == (if |summary| <= 500 then |summary| else 500)
      && StartsWith(summary, s)
  {
  }
}
