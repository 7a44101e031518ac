/** Decoding the encoding of any attachment gives the attachment back,
    however deeply polls nest further attachments in their answers. The
    proof is one structural induction through PostAttachment,
    ProvidedAnswer and Attachment. */
module RoundTrip {
  import opened Results
  import opened Json
  import opened Decimal
  import opened Models
  import opened Primitives
  import opened Codec
  import opened Envelope

  /** The resolver rebuilds a value from exactly the slots its encoding fills. */
  lemma ResolveSlotsOf(x: PostAttachment)
    ensures Resolve(SlotsOf(x)) == Ok(x)
  {
  }

  /** Scanning an encoded attachment fills exactly the slots of SlotsOf. */
  lemma {:induction false} ScanEncoded(x: PostAttachment)
    decreases x, 1
    ensures ScanFields(EncodePostAttachment(x).fields, EmptySlots) == Ok(SlotsOf(x))
  {
    match x
    case Media(mimeType, uri) => ScanEncodedMedia(mimeType, uri);
    case Poll(_, answers, _, _, _, tally) =>
      ProvidedAnswersRoundTrip(answers);
      TallyOptRoundTrip(tally);
      ScanEncodedPoll(x);
  }

  lemma ScanEncodedMedia(mimeType: string, uri: string)
    ensures ScanFields(EncodePostAttachment(Media(mimeType, uri)).fields, EmptySlots)
         == Ok(SlotsOf(Media(mimeType, uri)))
  {
    var t2 := [(FieldName(Uri), JStr(uri))];
    var t1 := [(FieldName(MimeType), JStr(mimeType))] + t2;
    var t0 := [(FieldName(TypeUriField), JStr(MediaTypeUri))] + t1;
    assert EncodePostAttachment(Media(mimeType, uri)).fields == t0;
    var s1 := EmptySlots.(typeUri := Some(MediaTypeUri));
    var s2 := s1.(mimeType := Some(mimeType));
    ScanTypeUriStep(MediaTypeUri, t1, EmptySlots);
    ScanMimeTypeStep(mimeType, t2, s1);
    assert t2 == t2 + [];
    ScanUriStep(uri, [], s2);
  }

  /** The poll case, given that its answers and its tally decode back. */
  lemma ScanEncodedPoll(x: PostAttachment)
    requires x.Poll?
    requires DecodeProvidedAnswerItems(EncodeProvidedAnswers(x.providedAnswers)) == Ok(x.providedAnswers)
    requires DecodeOptTally(EncodeOptTally(x.finalTallyResults)) == Ok(x.finalTallyResults)
    ensures ScanFields(EncodePostAttachment(x).fields, EmptySlots) == Ok(SlotsOf(x))
  {
    ScanPollEntries(x.question, EncodeProvidedAnswers(x.providedAnswers), x.providedAnswers, x.endDate,
                    x.allowsMultipleAnswers, x.allowsAnswerEdits, EncodeOptTally(x.finalTallyResults), x.finalTallyResults);
  }

  /** The seven entries of a poll, scanned one by one. */
  lemma ScanPollEntries(question: string, items: seq<Json>, answers: seq<ProvidedAnswer>, endDate: string,
                        multiple: bool, edits: bool, tally: Json, t: Option<PollTallyResults>)
    requires DecodeProvidedAnswerItems(items) == Ok(answers)
    requires DecodeOptTally(tally) == Ok(t)
    ensures ScanFields([
              (FieldName(TypeUriField), JStr(PollTypeUri)),
              (FieldName(Question), JStr(question)),
              (FieldName(ProvidedAnswers), JArr(items)),
              (FieldName(EndDate), JStr(endDate)),
              (FieldName(AllowsMultipleAnswers), JBool(multiple)),
              (FieldName(AllowsAnswerEdits), JBool(edits)),
              (FieldName(FinalTallyResults), tally)
            ], EmptySlots)
         == Ok(SlotsOf(Poll(question, answers, endDate, multiple, edits, t)))
  {
    var t6 := [(FieldName(FinalTallyResults), tally)];
    var t5 := [(FieldName(AllowsAnswerEdits), JBool(edits))] + t6;
    var t4 := [(FieldName(AllowsMultipleAnswers), JBool(multiple))] + t5;
    var t3 := [(FieldName(EndDate), JStr(endDate))] + t4;
    var t2 := [(FieldName(ProvidedAnswers), JArr(items))] + t3;
    var t1 := [(FieldName(Question), JStr(question))] + t2;
    var s1 := EmptySlots.(typeUri := Some(PollTypeUri));
    var s2 := s1.(question := Some(question));
    var s3 := s2.(providedAnswers := Some(answers));
    var s4 := s3.(endDate := Some(endDate));
    var s5 := s4.(allowsMultipleAnswers := Some(multiple));
    var s6 := s5.(allowsAnswerEdits := Some(edits));
    ScanTypeUriStep(PollTypeUri, t1, EmptySlots);
    ScanQuestionStep(question, t2, s1);
    ScanProvidedAnswersStep(items, answers, t3, s2);
    ScanEndDateStep(endDate, t4, s3);
    ScanAllowsMultipleAnswersStep(multiple, t5, s4);
    ScanAllowsAnswerEditsStep(edits, t6, s5);
    assert t6 == t6 + [];
    ScanFinalTallyResultsStep(tally, t, [], s6);
    var s7 := s6.(finalTallyResults := Some(t));
    assert ScanFields([], s7) == Ok(s7);
    assert s7 == SlotsOf(Poll(question, answers, endDate, multiple, edits, t));
    SevenEntries(
      (FieldName(TypeUriField), JStr(PollTypeUri)),
      (FieldName(Question), JStr(question)),
      (FieldName(ProvidedAnswers), JArr(items)),
      (FieldName(EndDate), JStr(endDate)),
      (FieldName(AllowsMultipleAnswers), JBool(multiple)),
      (FieldName(AllowsAnswerEdits), JBool(edits)),
      (FieldName(FinalTallyResults), tally));
  }

  lemma SevenEntries<T>(a: T, b: T, c: T, d: T, e: T, f: T, g: T)
    ensures [a, b, c, d, e, f, g] == [a] + ([b] + ([c] + ([d] + ([e] + ([f] + [g])))))
  {
  }

  lemma ScanAnswerStep(fs: Fields, s: AnswerSlots, next: AnswerSlots)
    requires |fs| > 0 && ScanAnswerEntry(fs[0], s) == Ok(next)
    ensures ScanAnswerFields(fs, s) == ScanAnswerFields(fs[1..], next)
  {
  }

  lemma ScanAttachmentCons(entry: (string, Json), rest: Fields, s: AttachmentSlots, next: AttachmentSlots)
    requires ScanAttachmentEntry(entry, s) == Ok(next)
    ensures ScanAttachmentFields([entry] + rest, s) == ScanAttachmentFields(rest, next)
  {
    assert ([entry] + rest)[1..] == rest;
  }

  lemma ScanSubspaceIdStep(n: u64, rest: Fields, s: AttachmentSlots)
    requires s.subspaceId.None?
    ensures ScanAttachmentFields([("subspace_id", EncodeU64(n))] + rest, s) == ScanAttachmentFields(rest, s.(subspaceId := Some(n)))
  {
    U64RoundTrip(n);
    ScanAttachmentCons(("subspace_id", EncodeU64(n)), rest, s, s.(subspaceId := Some(n)));
  }

  lemma ScanSectionIdStep(n: u32, rest: Fields, s: AttachmentSlots)
    requires s.sectionId.None?
    ensures ScanAttachmentFields([("section_id", EncodeU32(n))] + rest, s) == ScanAttachmentFields(rest, s.(sectionId := Some(n)))
  {
    U32RoundTrip(n);
    ScanAttachmentCons(("section_id", EncodeU32(n)), rest, s, s.(sectionId := Some(n)));
  }

  lemma ScanPostIdStep(n: u64, rest: Fields, s: AttachmentSlots)
    requires s.postId.None?
    ensures ScanAttachmentFields([("post_id", EncodeU64(n))] + rest, s) == ScanAttachmentFields(rest, s.(postId := Some(n)))
  {
    U64RoundTrip(n);
    ScanAttachmentCons(("post_id", EncodeU64(n)), rest, s, s.(postId := Some(n)));
  }

  lemma ScanIdStep(n: u32, rest: Fields, s: AttachmentSlots)
    requires s.id.None?
    ensures ScanAttachmentFields([("id", EncodeU32(n))] + rest, s) == ScanAttachmentFields(rest, s.(id := Some(n)))
  {
    U32RoundTrip(n);
    ScanAttachmentCons(("id", EncodeU32(n)), rest, s, s.(id := Some(n)));
  }

  lemma ScanContentStep(v: Json, c: PostAttachment, rest: Fields, s: AttachmentSlots)
    requires s.content.None?
    requires DecodePostAttachment(v) == Ok(c)
    ensures ScanAttachmentFields([("content", v)] + rest, s) == ScanAttachmentFields(rest, s.(content := Some(c)))
  {
    ScanAttachmentCons(("content", v), rest, s, s.(content := Some(c)));
  }

  lemma FiveEntries<T>(a: T, b: T, c: T, d: T, e: T)
    ensures [a, b, c, d, e] == [a] + ([b] + ([c] + ([d] + [e])))
  {
  }

  lemma {:induction false} PostAttachmentRoundTrip(x: PostAttachment)
    decreases x, 2
    ensures DecodePostAttachment(EncodePostAttachment(x)) == Ok(x)
  {
    ScanEncoded(x);
    ResolveSlotsOf(x);
  }

  lemma {:induction false} ProvidedAnswersRoundTrip(answers: seq<ProvidedAnswer>)
    decreases answers
    ensures DecodeProvidedAnswerItems(EncodeProvidedAnswers(answers)) == Ok(answers)
  {
    if answers != [] {
      var items := EncodeProvidedAnswers(answers);
      assert items[1..] == EncodeProvidedAnswers(answers[1..]);
      ProvidedAnswerRoundTrip(answers[0]);
      ProvidedAnswersRoundTrip(answers[1..]);
      assert [answers[0]] + answers[1..] == answers;
    }
  }

  lemma {:induction false} ProvidedAnswerRoundTrip(a: ProvidedAnswer)
    decreases a
    ensures DecodeProvidedAnswer(EncodeProvidedAnswer(a)) == Ok(a)
  {
    var fs := EncodeProvidedAnswer(a).fields;
    OptStringRoundTrip(a.text);
    AttachmentsRoundTrip(a.attachments);
    var s0 := AnswerSlots(None, None);
    var s1 := s0.(text := Some(a.text));
    var s2 := s1.(attachments := Some(a.attachments));
    assert ScanAnswerEntry(fs[0], s0) == Ok(s1);
    ScanAnswerStep(fs, s0, s1);
    assert ScanAnswerEntry(fs[1], s1) == Ok(s2);
    ScanAnswerStep(fs[1..], s1, s2);
    assert fs[1..][1..] == [];
  }

  lemma {:induction false} AttachmentsRoundTrip(atts: seq<Attachment>)
    decreases atts
    ensures DecodeAttachmentItems(EncodeAttachments(atts)) == Ok(atts)
  {
    if atts != [] {
      var items := EncodeAttachments(atts);
      assert items[1..] == EncodeAttachments(atts[1..]);
      AttachmentRoundTrip(atts[0]);
      AttachmentsRoundTrip(atts[1..]);
      assert [atts[0]] + atts[1..] == atts;
    }
  }

  lemma {:induction false} AttachmentRoundTrip(a: Attachment)
    decreases a
    ensures DecodeAttachment(EncodeAttachment(a)) == Ok(a)
  {
    PostAttachmentRoundTrip(a.content);
    ScanAttachmentEntries(a.subspaceId, a.sectionId, a.postId, a.id, EncodePostAttachment(a.content), a.content);
  }

  /** The five entries of an attachment, scanned one by one. */
  lemma ScanAttachmentEntries(subspaceId: u64, sectionId: u32, postId: u64, id: u32, v: Json, c: PostAttachment)
    requires DecodePostAttachment(v) == Ok(c)
    ensures ScanAttachmentFields([
              ("subspace_id", EncodeU64(subspaceId)),
              ("section_id", EncodeU32(sectionId)),
              ("post_id", EncodeU64(postId)),
              ("id", EncodeU32(id)),
              ("content", v)
            ], AttachmentSlots(None, None, None, None, None))
         == Ok(AttachmentSlots(Some(subspaceId), Some(sectionId), Some(postId), Some(id), Some(c)))
  {
    var t4 := [("content", v)];
    var t3 := [("id", EncodeU32(id))] + t4;
    var t2 := [("post_id", EncodeU64(postId))] + t3;
    var t1 := [("section_id", EncodeU32(sectionId))] + t2;
    var s0 := AttachmentSlots(None, None, None, None, None);
    var s1 := s0.(subspaceId := Some(subspaceId));
    var s2 := s1.(sectionId := Some(sectionId));
    var s3 := s2.(postId := Some(postId));
    var s4 := s3.(id := Some(id));
    ScanSubspaceIdStep(subspaceId, t1, s0);
    ScanSectionIdStep(sectionId, t2, s1);
    ScanPostIdStep(postId, t3, s2);
    ScanIdStep(id, t4, s3);
    assert t4 == t4 + [];
    ScanContentStep(v, c, [], s4);
    var s5 := s4.(content := Some(c));
    assert ScanAttachmentFields([], s5) == Ok(s5);
    FiveEntries(
      ("subspace_id", EncodeU64(subspaceId)),
      ("section_id", EncodeU32(sectionId)),
      ("post_id", EncodeU64(postId)),
      ("id", EncodeU32(id)),
      ("content", v));
  }

  lemma {:induction false} TallyOptRoundTrip(t: Option<PollTallyResults>)
    ensures DecodeOptTally(EncodeOptTally(t)) == Ok(t)
  {
    if t.Some? {
      TallyRoundTrip(t.value);
    }
  }

  lemma {:induction false} TallyRoundTrip(t: PollTallyResults)
    ensures DecodeTally(EncodeTally(t)) == Ok(t)
  {
    var fs := EncodeTally(t).fields;
    AnswerResultsRoundTrip(t.results);
    assert ScanTallyFields(fs[1..], Some(t.results)) == Ok(Some(t.results));
  }

  lemma {:induction false} AnswerResultsRoundTrip(rs: seq<AnswerResult>)
    ensures DecodeAnswerResultItems(EncodeAnswerResults(rs)) == Ok(rs)
  {
    if rs != [] {
      var items := EncodeAnswerResults(rs);
      assert items[1..] == EncodeAnswerResults(rs[1..]);
      AnswerResultRoundTrip(rs[0]);
      AnswerResultsRoundTrip(rs[1..]);
      assert [rs[0]] + rs[1..] == rs;
    }
  }

  lemma {:induction false} AnswerResultRoundTrip(r: AnswerResult)
    ensures DecodeAnswerResult(EncodeAnswerResult(r)) == Ok(r)
  {
    var fs := EncodeAnswerResult(r).fields;
    U32RoundTrip(r.answerIndex);
    U64RoundTrip(r.votes);
    assert ScanAnswerResultFields(fs[2..], Some(r.answerIndex), Some(r.votes))
        == Ok((Some(r.answerIndex), Some(r.votes)));
    assert ScanAnswerResultFields(fs[1..], Some(r.answerIndex), None)
        == Ok((Some(r.answerIndex), Some(r.votes)));
  }

  /** Whatever decodes successfully is reproduced by encoding it and
      decoding again. */
  lemma DecodeIsStable(j: Json)
    requires DecodePostAttachment(j).Ok?
    ensures DecodePostAttachment(EncodePostAttachment(DecodePostAttachment(j).value)) == DecodePostAttachment(j)
  {
    PostAttachmentRoundTrip(DecodePostAttachment(j).value);
  }
}
