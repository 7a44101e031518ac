/** The wire documents of the codec's own unit tests, written as JSON
    trees: the encoder produces them and the decoder reads them back. */
module WireExamples {
  import opened Results
  import opened Json
  import opened Decimal
  import opened Models
  import opened Codec
  import opened RoundTrip
  import opened Encoding

  const TestMedia: PostAttachment := Media("test_mime", "test_uri")

  const TestMediaJson: Json :=
    JObj([
      ("@type", JStr("/desmos.posts.v1.Media")),
      ("mime_type", JStr("test_mime")),
      ("uri", JStr("test_uri"))
    ])

  lemma MediaExample()
    ensures EncodePostAttachment(TestMedia) == TestMediaJson
    ensures DecodePostAttachment(TestMediaJson) == Ok(TestMedia)
  {
    PostAttachmentRoundTrip(TestMedia);
  }

  /** The poll of the tests, with or without its one-result tally. */
  function TestPoll(tally: Option<PollTallyResults>): PostAttachment {
    Poll(
      "poll question",
      [ProvidedAnswer(Some("Question 1"), [Attachment(0, 0, 0, 0, TestMedia)])],
      "1234",
      false,
      false,
      tally)
  }

  const TestTally: PollTallyResults := PollTallyResults([AnswerResult(1, 1)])

  function TestPollJson(tally: Json): Json {
    JObj([
      ("@type", JStr("/desmos.posts.v1.Poll")),
      ("question", JStr("poll question")),
      ("provided_answers", JArr([
        JObj([
          ("text", JStr("Question 1")),
          ("attachments", JArr([
            JObj([
              ("subspace_id", JStr("0")),
              ("section_id", JNum(0)),
              ("post_id", JStr("0")),
              ("id", JNum(0)),
              ("content", TestMediaJson)
            ])
          ]))
        ])
      ])),
      ("end_date", JStr("1234")),
      ("allows_multiple_answers", JBool(false)),
      ("allows_answer_edits", JBool(false)),
      ("final_tally_results", tally)
    ])
  }

  const TestTallyJson: Json :=
    JObj([("results", JArr([JObj([("answer_index", JNum(1)), ("votes", JStr("1"))])]))])

  lemma TallyExample()
    ensures EncodeOptTally(Some(TestTally)) == TestTallyJson
  {
    var items := EncodeAnswerResults(TestTally.results);
    assert items == [EncodeAnswerResult(AnswerResult(1, 1))];
    assert ToDecimal(1) == "1";
  }

  const TestAttachmentJson: Json :=
    JObj([
      ("subspace_id", JStr("0")),
      ("section_id", JNum(0)),
      ("post_id", JStr("0")),
      ("id", JNum(0)),
      ("content", TestMediaJson)
    ])

  /** Zero identifiers are written "0" for the Uint64 ones and 0 for the u32 ones. */
  lemma AttachmentExample()
    ensures EncodeAttachment(Attachment(0, 0, 0, 0, TestMedia)) == TestAttachmentJson
  {
    assert ToDecimal(0) == "0";
    MediaExample();
  }

  lemma AnswersExample()
    ensures JArr(EncodeProvidedAnswers(TestPoll(None).providedAnswers)) ==
              JArr([JObj([("text", JStr("Question 1")), ("attachments", JArr([TestAttachmentJson]))])])
  {
    var atts := [Attachment(0, 0, 0, 0, TestMedia)];
    AttachmentExample();
    assert EncodeAttachments(atts) == [TestAttachmentJson];
    var answers := TestPoll(None).providedAnswers;
    assert EncodeProvidedAnswers(answers) == [EncodeProvidedAnswer(answers[0])];
  }

  lemma PollExample(tally: Option<PollTallyResults>)
    ensures EncodePostAttachment(TestPoll(tally)) == TestPollJson(EncodeOptTally(tally))
  {
    AnswersExample();
    WireFieldNames();
  }

  /** The poll with a tally writes the tally object, votes as "1". */
  lemma PollWithTallyExample()
    ensures EncodePostAttachment(TestPoll(Some(TestTally))) == TestPollJson(TestTallyJson)
    ensures DecodePostAttachment(TestPollJson(TestTallyJson)) == Ok(TestPoll(Some(TestTally)))
  {
    TallyExample();
    PollExample(Some(TestTally));
    PostAttachmentRoundTrip(TestPoll(Some(TestTally)));
  }

  /** The poll without a tally writes `"final_tally_results": null`. */
  lemma PollWithoutTallyExample()
    ensures EncodePostAttachment(TestPoll(None)) == TestPollJson(JNull)
    ensures DecodePostAttachment(TestPollJson(JNull)) == Ok(TestPoll(None))
  {
    PollExample(None);
    PostAttachmentRoundTrip(TestPoll(None));
  }

  /** A type URI that names neither variant is reported as a missing "@type". */
  lemma UnknownTypeUriExample()
    ensures DecodePostAttachment(JObj([("@type", JStr("/desmos.posts.v1.Other")), ("uri", JStr("test_uri"))]))
         == Err(MissingField("@type"))
  {
  }

  /** A poll without its question names "question", the first mandatory poll field. */
  lemma PollMissingQuestionExample()
    ensures DecodePostAttachment(JObj([("@type", JStr("/desmos.posts.v1.Poll")), ("end_date", JStr("1234"))]))
         == Err(MissingField("question"))
  {
  }

  /** A media object whose "uri" comes twice is rejected before the type is looked at. */
  lemma DuplicateUriExample()
    ensures DecodePostAttachment(JObj([("uri", JStr("a")), ("uri", JStr("b")), ("@type", JStr("/desmos.posts.v1.Media"))]))
         == Err(DuplicateField("uri"))
  {
  }
}
