/**
 * The spoiler gate both cards draw around a list of comments: the comments
 * are rendered blurred, with a notice on top, unless the viewer has
 * completed the item. The comment data itself is always rendered.
 */
module SpoilerGate {
  import opened Wrappers

  /** One rendered comment: the author's display name, if found, and the text. */
  datatype CommentLine = CommentLine(author: Option<string>, text: string)

  /** A rendered comment block. */
  datatype CommentsPanel = CommentsPanel(blurred: bool, spoilerNotice: bool, lines: seq<CommentLine>)

  /** The block around `lines` for a viewer whose completion flag is `userCompleted`. */
  function Gate(userCompleted: bool, lines: seq<CommentLine>): (p: CommentsPanel)
    ensures p.blurred <==> !userCompleted
    ensures p.spoilerNotice <==> !userCompleted
    ensures p.lines == lines
  {
    CommentsPanel(!userCompleted, !userCompleted, lines)
  }

  /**
   * The gate hides nothing from the payload: a viewer who has not completed
   * the item receives the same lines as one who has, only obscured.
   */
  lemma GateIsAdvisory(lines: seq<CommentLine>)
    ensures Gate(false, lines).lines == Gate(true, lines).lines
    ensures Gate(false, lines).blurred && !Gate(true, lines).blurred
  {
  }
}
