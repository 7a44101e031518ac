/** The shape of what the encoder writes: which keys, in which order, and
    in which JSON form each value appears. */
module Encoding {
  import opened Results
  import opened Json
  import opened Decimal
  import opened Models
  import opened Codec
  import opened Envelope
  import opened RoundTrip

  /** A media value is written as exactly "@type", "mime_type", "uri", in that order. */
  lemma MediaKeyOrder(mimeType: string, uri: string)
    ensures Keys(EncodePostAttachment(Media(mimeType, uri)).fields) == ["@type", "mime_type", "uri"]
    ensures EncodePostAttachment(Media(mimeType, uri)).fields[0].1 == JStr("/desmos.posts.v1.Media")
  {
    var fs := EncodePostAttachment(Media(mimeType, uri)).fields;
    var ks := Keys(fs);
    assert ks[0] == fs[0].0 && ks[1] == fs[1].0 && ks[2] == fs[2].0;
  }

  /** The wire names of the envelope's keys. */
  lemma WireFieldNames()
    ensures FieldName(TypeUriField) == "@type"
    ensures FieldName(MimeType) == "mime_type" && FieldName(Uri) == "uri"
    ensures FieldName(Question) == "question" && FieldName(ProvidedAnswers) == "provided_answers"
    ensures FieldName(EndDate) == "end_date" && FieldName(AllowsMultipleAnswers) == "allows_multiple_answers"
    ensures FieldName(AllowsAnswerEdits) == "allows_answer_edits"
    ensures FieldName(FinalTallyResults) == "final_tally_results"
  {
  }

  /** A poll is written as exactly "@type", "question", "provided_answers",
      "end_date", "allows_multiple_answers", "allows_answer_edits",
      "final_tally_results", in that order. */
  lemma PollKeyOrder(x: PostAttachment)
    requires x.Poll?
    ensures |EncodePostAttachment(x).fields| == 7
    ensures EncodePostAttachment(x).fields[0] == ("@type", JStr("/desmos.posts.v1.Poll"))
    ensures EncodePostAttachment(x).fields[1].0 == "question"
    ensures EncodePostAttachment(x).fields[2].0 == "provided_answers"
    ensures EncodePostAttachment(x).fields[3].0 == "end_date"
    ensures EncodePostAttachment(x).fields[4].0 == "allows_multiple_answers"
    ensures EncodePostAttachment(x).fields[5].0 == "allows_answer_edits"
    ensures EncodePostAttachment(x).fields[6].0 == "final_tally_results"
  {
    var fs := EncodePostAttachment(x).fields;
    assert fs[1].0 == FieldName(Question) && fs[2].0 == FieldName(ProvidedAnswers) && fs[3].0 == FieldName(EndDate);
    assert fs[4].0 == FieldName(AllowsMultipleAnswers) && fs[5].0 == FieldName(AllowsAnswerEdits);
    assert fs[6].0 == FieldName(FinalTallyResults);
    WireFieldNames();
  }

  /** Between the discriminator and the tally the encoder writes exactly
      the variant's mandatory fields, in the order the decoder demands them. */
  lemma EncodeFollowsRequiredOrder(x: PostAttachment)
    ensures |EncodePostAttachment(x).fields| == |RequiredFields(KindOf(x))| + (if x.Poll? then 2 else 1)
    ensures forall i :: 0 <= i < |RequiredFields(KindOf(x))| ==>
              EncodePostAttachment(x).fields[i + 1].0 == FieldName(RequiredFields(KindOf(x))[i])
  {
    var fs := EncodePostAttachment(x).fields;
    var req := RequiredFields(KindOf(x));
    if x.Media? {
      assert req == [MimeType, Uri];
    } else {
      assert req == [Question, ProvidedAnswers, EndDate, AllowsMultipleAnswers, AllowsAnswerEdits];
    }
  }

  /** The discriminator comes first and carries the variant's type URI. */
  lemma EncodeTypeUriFirst(x: PostAttachment)
    ensures EncodePostAttachment(x).fields[0] == (FieldName(TypeUriField), JStr(TypeUri(KindOf(x))))
    ensures KindOfUri(EncodePostAttachment(x).fields[0].1.s) == Some(KindOf(x))
  {
  }

  /** A poll always writes its tally key, with null for no tally. */
  lemma TallyKeyAlwaysPresent(x: PostAttachment)
    requires x.Poll?
    ensures |EncodePostAttachment(x).fields| == 7
    ensures EncodePostAttachment(x).fields[6].0 == FieldName(FinalTallyResults)
    ensures x.finalTallyResults.None? <==> EncodePostAttachment(x).fields[6].1 == JNull
  {
    assert EncodePostAttachment(x).fields[6] == (FieldName(FinalTallyResults), EncodeOptTally(x.finalTallyResults));
  }

  /** Every key written is one the decoder knows, none twice. */
  lemma EncodedFieldsWellFormed(x: PostAttachment)
    ensures FreshDistinctKeys(EncodePostAttachment(x).fields, EmptySlots)
  {
    PostAttachmentRoundTrip(x);
    DecodedKeysDistinct(EncodePostAttachment(x).fields);
  }

  /** An attachment is written with its five keys in declaration order;
      the Uint64 identifiers as decimal strings, the u32 ones as numbers. */
  lemma AttachmentEncoding(a: Attachment)
    ensures Keys(EncodeAttachment(a).fields) == ["subspace_id", "section_id", "post_id", "id", "content"]
    ensures EncodeAttachment(a).fields[0].1 == JStr(ToDecimal(a.subspaceId))
    ensures EncodeAttachment(a).fields[1].1 == JNum(a.sectionId)
    ensures EncodeAttachment(a).fields[2].1 == JStr(ToDecimal(a.postId))
    ensures EncodeAttachment(a).fields[3].1 == JNum(a.id)
    ensures EncodeAttachment(a).fields[4].1 == EncodePostAttachment(a.content)
  {
  }

  /** A provided answer writes "text" (null when absent), then "attachments". */
  lemma ProvidedAnswerEncoding(a: ProvidedAnswer)
    ensures Keys(EncodeProvidedAnswer(a).fields) == ["text", "attachments"]
    ensures a.text.None? <==> EncodeProvidedAnswer(a).fields[0].1 == JNull
    ensures a.text.Some? ==> EncodeProvidedAnswer(a).fields[0].1 == JStr(a.text.value)
    ensures EncodeProvidedAnswer(a).fields[1].1.JArr?
    ensures |EncodeProvidedAnswer(a).fields[1].1.items| == |a.attachments|
    ensures forall i :: 0 <= i < |a.attachments| ==>
              EncodeProvidedAnswer(a).fields[1].1.items[i] == EncodeAttachment(a.attachments[i])
  {
  }

  /** A tally is {"results": [...]}; each result writes its index as a
      number and its votes as a decimal string. */
  lemma TallyEncoding(t: PollTallyResults)
    ensures Keys(EncodeTally(t).fields) == ["results"]
    ensures EncodeTally(t).fields[0].1.JArr?
    ensures |EncodeTally(t).fields[0].1.items| == |t.results|
    ensures forall i :: 0 <= i < |t.results| ==>
              Keys(EncodeTally(t).fields[0].1.items[i].fields) == ["answer_index", "votes"] &&
              EncodeTally(t).fields[0].1.items[i].fields[0].1 == JNum(t.results[i].answerIndex) &&
              EncodeTally(t).fields[0].1.items[i].fields[1].1 == JStr(ToDecimal(t.results[i].votes))
  {
  }
}
