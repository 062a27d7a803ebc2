/** The records that flow through one review: changed files in, comments and
    per-file results out. */
module Entities {
  import opened Wrappers

  /** One inline comment `{"path", "line", "message"}`. `line` is `None` when
      the key is missing or its value is not an int. */
  datatype Comment = Comment(path: string, line: Option<int>, message: string)

  /** One changed file of a pull request; `patch` is "" for binary or huge
      files, which GitHub sends without a diff. */
  datatype ChangedFile = ChangedFile(
    filename: string,
    status: string,
    additions: nat,
    deletions: nat,
    patch: string)

  /** What reviewing one file produced. */
  datatype FileReviewResult = FileReviewResult(filename: string, comments: seq<Comment>, summary: string)

  /** One file's review as the scheduler sees it: a result, or the exception
      that ended that file's review. */
  datatype FileOutcome = Reviewed(result: FileReviewResult) | Failed(error: string)
}
