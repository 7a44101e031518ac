/** The posts data model that the attachment codec recurses through.
    Uint64 fields are `u64`, u32 fields are `u32`. */
module Models {
  import opened Results
  import opened Decimal

  /** The content of an attachment: a media reference or a poll. */
  datatype PostAttachment =
    | Media(mimeType: string, uri: string)
    | Poll(
        question: string,
        providedAnswers: seq<ProvidedAnswer>,
        endDate: string,
        allowsMultipleAnswers: bool,
        allowsAnswerEdits: bool,
        finalTallyResults: Option<PollTallyResults>)

  /** One selectable poll answer; it may carry attachments of its own. */
  datatype ProvidedAnswer = ProvidedAnswer(text: Option<string>, attachments: seq<Attachment>)

  /** An attachment of a post, whose content is polymorphic. */
  datatype Attachment = Attachment(
    subspaceId: u64,
    sectionId: u32,
    postId: u64,
    id: u32,
    content: PostAttachment)

  datatype AnswerResult = AnswerResult(answerIndex: u32, votes: u64)

  datatype PollTallyResults = PollTallyResults(results: seq<AnswerResult>)

  /** Who may reply to a post. */
  datatype ReplySetting = Unspecified | Everyone | Followers | Mutual | Mentions

  /** How one post refers to another. */
  datatype PostReferenceType = RefUnspecified | ReplayTo | Quote | Repost
}
