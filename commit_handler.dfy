/** CommitHandlerFactory.createHandler: when a commit is made, its message,
    cut to at most 25 characters, becomes the text of the next COMMIT
    sample. */
module CommitHandler {
  import Stats

  /** The longest commit text kept. */
  const MAX_COMMIT_TEXT: int := 25

  /** The text stored for a commit message: the message itself when it is
      short enough, otherwise its first 25 characters. */
  function CommitLabel(commitMsg: string): (r: string)
    ensures |r| <= MAX_COMMIT_TEXT && |r| <= |commitMsg| && r == commitMsg[..|r|]
    ensures |commitMsg| <= MAX_COMMIT_TEXT ==> r == commitMsg
    ensures |commitMsg| > MAX_COMMIT_TEXT ==> |r| == MAX_COMMIT_TEXT
  {
    if |commitMsg| > MAX_COMMIT_TEXT then commitMsg[..MAX_COMMIT_TEXT] else commitMsg
  }

  /** The stored text is the longest prefix of the message that fits:
      every prefix of at most 25 characters is a prefix of it. */
  lemma CommitLabelIsLongestPrefix(commitMsg: string, prefix: string)
    requires |prefix| <= MAX_COMMIT_TEXT && |prefix| <= |commitMsg| && prefix == commitMsg[..|prefix|]
    ensures |prefix| <= |CommitLabel(commitMsg)| && prefix == CommitLabel(commitMsg)[..|prefix|]
  {
  }

  /** Cutting a text that has already been cut changes nothing. */
  lemma CommitLabelIdempotent(commitMsg: string)
    ensures CommitLabel(CommitLabel(commitMsg)) == CommitLabel(commitMsg)
  {
  }

  /** createHandler on the shared parser: only its commit text is written;
      the commit flag is left alone. The returned CommitListener is not
      part of this model. */
  method CreateHandler(parser: Stats.Parser, commitMsg: string)
    modifies parser`commitText
    ensures parser.commitText == CommitLabel(commitMsg)
  {
    if |commitMsg| > MAX_COMMIT_TEXT {
      parser.commitText := commitMsg[..MAX_COMMIT_TEXT];
    } else {
      parser.commitText := commitMsg;
    }
  }
}
