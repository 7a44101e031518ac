/** The derived mapping of the records an attachment recurses through:
    an attachment, a provided answer, a tally and an answer result. Each is
    read from a JSON object whose unknown keys are skipped; a known key
    seen twice is rejected before its value is read; after the scan the
    fields are demanded in declaration order, and an absent optional field
    reads as none. */
module Records {
  import opened Results
  import opened Json
  import opened Decimal
  import opened Models
  import opened Primitives
  import opened Codec

  // ---------------------------------------------------------------------
  // Attachment

  const AttachmentKeys: seq<string> := ["subspace_id", "section_id", "post_id", "id", "content"]

  const NoAttachmentSlots: AttachmentSlots := AttachmentSlots(None, None, None, None, None)

  /** Whether the scan has already read the field with this wire name. */
  predicate AttachmentHas(s: AttachmentSlots, key: string) {
    || (key == "subspace_id" && s.subspaceId.Some?)
    || (key == "section_id" && s.sectionId.Some?)
    || (key == "post_id" && s.postId.Some?)
    || (key == "id" && s.id.Some?)
    || (key == "content" && s.content.Some?)
  }

  /** An entry under an unknown key is skipped, whatever its value. */
  lemma AttachmentSkipsUnknown(entry: (string, Json), rest: Fields, s: AttachmentSlots)
    requires entry.0 !in AttachmentKeys
    ensures ScanAttachmentFields([entry] + rest, s) == ScanAttachmentFields(rest, s)
  {
    assert ([entry] + rest)[1..] == rest;
  }

  /** An accepted entry adds its own field and keeps the others. */
  lemma AttachmentEntryHas(entry: (string, Json), s: AttachmentSlots, key: string)
    requires ScanAttachmentEntry(entry, s).Ok?
    requires key in AttachmentKeys
    ensures AttachmentHas(ScanAttachmentEntry(entry, s).value, key) <==> AttachmentHas(s, key) || key == entry.0
  {
  }

  /** After a scan, a field has been read exactly when it was before or its
      key occurs in the object. */
  lemma {:induction false} ScanAttachmentHas(fields: Fields, s: AttachmentSlots, key: string)
    requires ScanAttachmentFields(fields, s).Ok?
    requires key in AttachmentKeys
    ensures AttachmentHas(ScanAttachmentFields(fields, s).value, key) <==> AttachmentHas(s, key) || key in Keys(fields)
  {
    if fields != [] {
      var next := ScanAttachmentEntry(fields[0], s).value;
      AttachmentEntryHas(fields[0], s, key);
      assert ScanAttachmentFields(fields, s) == ScanAttachmentFields(fields[1..], next);
      ScanAttachmentHas(fields[1..], next, key);
      assert Keys(fields) == [fields[0].0] + Keys(fields[1..]);
    }
  }

  /** A known key met again after a clean scan is a duplicate. */
  lemma {:induction false} ScanAttachmentRepeat(pre: Fields, key: string, v: Json, post: Fields, s: AttachmentSlots)
    requires key in AttachmentKeys
    requires ScanAttachmentFields(pre, s).Ok?
    requires AttachmentHas(s, key) || key in Keys(pre)
    ensures ScanAttachmentFields(pre + [(key, v)] + post, s) == Err(DuplicateField(key))
  {
    var all := pre + [(key, v)] + post;
    if pre == [] {
      assert all == [(key, v)] + post;
      assert ScanAttachmentEntry((key, v), s) == Err(DuplicateField(key));
    } else {
      var next := ScanAttachmentEntry(pre[0], s).value;
      AttachmentEntryHas(pre[0], s, key);
      assert all[0] == pre[0] && all[1..] == pre[1..] + [(key, v)] + post;
      assert Keys(pre) == [pre[0].0] + Keys(pre[1..]);
      ScanAttachmentRepeat(pre[1..], key, v, post, next);
    }
  }

  lemma AttachmentDuplicateRejected(pre: Fields, key: string, v: Json, post: Fields)
    requires key in AttachmentKeys
    requires key in Keys(pre)
    requires ScanAttachmentFields(pre, NoAttachmentSlots).Ok?
    ensures DecodeAttachment(JObj(pre + [(key, v)] + post)) == Err(DuplicateField(key))
  {
    ScanAttachmentRepeat(pre, key, v, post, NoAttachmentSlots);
  }

  /** The first field missing, in declaration order, is the one reported. */
  lemma AttachmentMissingFieldReported(fields: Fields)
    requires ScanAttachmentFields(fields, NoAttachmentSlots).Ok?
    ensures "subspace_id" !in Keys(fields) ==>
              DecodeAttachment(JObj(fields)) == Err(MissingField("subspace_id"))
    ensures "subspace_id" in Keys(fields) && "section_id" !in Keys(fields) ==>
              DecodeAttachment(JObj(fields)) == Err(MissingField("section_id"))
    ensures "subspace_id" in Keys(fields) && "section_id" in Keys(fields) && "post_id" !in Keys(fields) ==>
              DecodeAttachment(JObj(fields)) == Err(MissingField("post_id"))
    ensures "subspace_id" in Keys(fields) && "section_id" in Keys(fields) && "post_id" in Keys(fields) &&
            "id" !in Keys(fields) ==>
              DecodeAttachment(JObj(fields)) == Err(MissingField("id"))
    ensures "subspace_id" in Keys(fields) && "section_id" in Keys(fields) && "post_id" in Keys(fields) &&
            "id" in Keys(fields) && "content" !in Keys(fields) ==>
              DecodeAttachment(JObj(fields)) == Err(MissingField("content"))
    ensures "subspace_id" in Keys(fields) && "section_id" in Keys(fields) && "post_id" in Keys(fields) &&
            "id" in Keys(fields) && "content" in Keys(fields) ==>
              DecodeAttachment(JObj(fields)).Ok?
  {
    var s := ScanAttachmentFields(fields, NoAttachmentSlots).value;
    ScanAttachmentHas(fields, NoAttachmentSlots, "subspace_id");
    ScanAttachmentHas(fields, NoAttachmentSlots, "section_id");
    ScanAttachmentHas(fields, NoAttachmentSlots, "post_id");
    ScanAttachmentHas(fields, NoAttachmentSlots, "id");
    ScanAttachmentHas(fields, NoAttachmentSlots, "content");
  }

  // ---------------------------------------------------------------------
  // Provided answer

  const AnswerKeys: seq<string> := ["text", "attachments"]

  const NoAnswerSlots: AnswerSlots := AnswerSlots(None, None)

  predicate AnswerHas(s: AnswerSlots, key: string) {
    || (key == "text" && s.text.Some?)
    || (key == "attachments" && s.attachments.Some?)
  }

  lemma AnswerSkipsUnknown(entry: (string, Json), rest: Fields, s: AnswerSlots)
    requires entry.0 !in AnswerKeys
    ensures ScanAnswerFields([entry] + rest, s) == ScanAnswerFields(rest, s)
  {
    assert ([entry] + rest)[1..] == rest;
  }

  lemma AnswerEntryHas(entry: (string, Json), s: AnswerSlots, key: string)
    requires ScanAnswerEntry(entry, s).Ok?
    requires key in AnswerKeys
    ensures AnswerHas(ScanAnswerEntry(entry, s).value, key) <==> AnswerHas(s, key) || key == entry.0
  {
  }

  lemma {:induction false} ScanAnswerHas(fields: Fields, s: AnswerSlots, key: string)
    requires ScanAnswerFields(fields, s).Ok?
    requires key in AnswerKeys
    ensures AnswerHas(ScanAnswerFields(fields, s).value, key) <==> AnswerHas(s, key) || key in Keys(fields)
  {
    if fields != [] {
      var next := ScanAnswerEntry(fields[0], s).value;
      AnswerEntryHas(fields[0], s, key);
      assert ScanAnswerFields(fields, s) == ScanAnswerFields(fields[1..], next);
      ScanAnswerHas(fields[1..], next, key);
      assert Keys(fields) == [fields[0].0] + Keys(fields[1..]);
    }
  }

  lemma {:induction false} ScanAnswerRepeat(pre: Fields, key: string, v: Json, post: Fields, s: AnswerSlots)
    requires key in AnswerKeys
    requires ScanAnswerFields(pre, s).Ok?
    requires AnswerHas(s, key) || key in Keys(pre)
    ensures ScanAnswerFields(pre + [(key, v)] + post, s) == Err(DuplicateField(key))
  {
    var all := pre + [(key, v)] + post;
    if pre == [] {
      assert all == [(key, v)] + post;
      assert ScanAnswerEntry((key, v), s) == Err(DuplicateField(key));
    } else {
      var next := ScanAnswerEntry(pre[0], s).value;
      AnswerEntryHas(pre[0], s, key);
      assert all[0] == pre[0] && all[1..] == pre[1..] + [(key, v)] + post;
      assert Keys(pre) == [pre[0].0] + Keys(pre[1..]);
      ScanAnswerRepeat(pre[1..], key, v, post, next);
    }
  }

  lemma AnswerDuplicateRejected(pre: Fields, key: string, v: Json, post: Fields)
    requires key in AnswerKeys
    requires key in Keys(pre)
    requires ScanAnswerFields(pre, NoAnswerSlots).Ok?
    ensures DecodeProvidedAnswer(JObj(pre + [(key, v)] + post)) == Err(DuplicateField(key))
  {
    ScanAnswerRepeat(pre, key, v, post, NoAnswerSlots);
  }

  /** The attachments are mandatory; an absent text reads as none. */
  lemma AnswerMissingFieldReported(fields: Fields)
    requires ScanAnswerFields(fields, NoAnswerSlots).Ok?
    ensures "attachments" !in Keys(fields) ==>
              DecodeProvidedAnswer(JObj(fields)) == Err(MissingField("attachments"))
    ensures "attachments" in Keys(fields) ==> DecodeProvidedAnswer(JObj(fields)).Ok?
    ensures "text" !in Keys(fields) && DecodeProvidedAnswer(JObj(fields)).Ok? ==>
              DecodeProvidedAnswer(JObj(fields)).value.text.None?
  {
    ScanAnswerHas(fields, NoAnswerSlots, "text");
    ScanAnswerHas(fields, NoAnswerSlots, "attachments");
  }

  // ---------------------------------------------------------------------
  // Tally

  /** An entry under any key but "results" is skipped. */
  lemma TallySkipsUnknown(entry: (string, Json), rest: Fields, results: Option<seq<AnswerResult>>)
    requires entry.0 != "results"
    ensures ScanTallyFields([entry] + rest, results) == ScanTallyFields(rest, results)
  {
    assert ([entry] + rest)[1..] == rest;
  }

  /** Without a "results" key the scan accepts anything and reads nothing. */
  lemma {:induction false} ScanTallyWithoutResults(fields: Fields, results: Option<seq<AnswerResult>>)
    requires "results" !in Keys(fields)
    ensures ScanTallyFields(fields, results) == Ok(results)
  {
    if fields != [] {
      assert Keys(fields) == [fields[0].0] + Keys(fields[1..]);
      ScanTallyWithoutResults(fields[1..], results);
    }
  }

  lemma {:induction false} ScanTallyHas(fields: Fields, results: Option<seq<AnswerResult>>)
    requires ScanTallyFields(fields, results).Ok?
    ensures ScanTallyFields(fields, results).value.Some? <==> results.Some? || "results" in Keys(fields)
  {
    if fields != [] {
      assert Keys(fields) == [fields[0].0] + Keys(fields[1..]);
      if fields[0].0 != "results" {
        ScanTallyHas(fields[1..], results);
      } else {
        var rs := DecodeAnswerResultList(fields[0].1).value;
        ScanTallyHas(fields[1..], Some(rs));
      }
    }
  }

  lemma {:induction false} ScanTallyRepeat(pre: Fields, v: Json, post: Fields, results: Option<seq<AnswerResult>>)
    requires ScanTallyFields(pre, results).Ok?
    requires results.Some? || "results" in Keys(pre)
    ensures ScanTallyFields(pre + [("results", v)] + post, results) == Err(DuplicateField("results"))
  {
    var all := pre + [("results", v)] + post;
    if pre == [] {
      assert all == [("results", v)] + post;
    } else {
      assert all[0] == pre[0] && all[1..] == pre[1..] + [("results", v)] + post;
      assert Keys(pre) == [pre[0].0] + Keys(pre[1..]);
      if pre[0].0 != "results" {
        ScanTallyRepeat(pre[1..], v, post, results);
      } else {
        var rs := DecodeAnswerResultList(pre[0].1).value;
        ScanTallyRepeat(pre[1..], v, post, Some(rs));
      }
    }
  }

  lemma TallyDuplicateRejected(pre: Fields, v: Json, post: Fields)
    requires "results" in Keys(pre)
    requires ScanTallyFields(pre, None).Ok?
    ensures DecodeTally(JObj(pre + [("results", v)] + post)) == Err(DuplicateField("results"))
  {
    ScanTallyRepeat(pre, v, post, None);
  }

  /** "results" is mandatory: without it a tally is rejected, and with it a
      clean scan gives a tally. */
  lemma TallyMissingResultsReported(fields: Fields)
    ensures "results" !in Keys(fields) ==> DecodeTally(JObj(fields)) == Err(MissingField("results"))
    ensures "results" in Keys(fields) && ScanTallyFields(fields, None).Ok? ==> DecodeTally(JObj(fields)).Ok?
  {
    if "results" !in Keys(fields) {
      ScanTallyWithoutResults(fields, None);
    } else if ScanTallyFields(fields, None).Ok? {
      ScanTallyHas(fields, None);
    }
  }

  // ---------------------------------------------------------------------
  // Answer result

  const AnswerResultKeys: seq<string> := ["answer_index", "votes"]

  predicate AnswerResultHas(index: Option<u32>, votes: Option<u64>, key: string) {
    || (key == "answer_index" && index.Some?)
    || (key == "votes" && votes.Some?)
  }

  lemma AnswerResultSkipsUnknown(entry: (string, Json), rest: Fields, index: Option<u32>, votes: Option<u64>)
    requires entry.0 !in AnswerResultKeys
    ensures ScanAnswerResultFields([entry] + rest, index, votes) == ScanAnswerResultFields(rest, index, votes)
  {
    assert ([entry] + rest)[1..] == rest;
  }

  lemma {:induction false} ScanAnswerResultHas(fields: Fields, index: Option<u32>, votes: Option<u64>, key: string)
    requires ScanAnswerResultFields(fields, index, votes).Ok?
    requires key in AnswerResultKeys
    ensures var (i, n) := ScanAnswerResultFields(fields, index, votes).value;
            AnswerResultHas(i, n, key) <==> AnswerResultHas(index, votes, key) || key in Keys(fields)
  {
    if fields != [] {
      assert Keys(fields) == [fields[0].0] + Keys(fields[1..]);
      var (k, v) := fields[0];
      if k == "answer_index" {
        ScanAnswerResultHas(fields[1..], Some(DecodeU32(v).value), votes, key);
      } else if k == "votes" {
        ScanAnswerResultHas(fields[1..], index, Some(DecodeU64(v).value), key);
      } else {
        ScanAnswerResultHas(fields[1..], index, votes, key);
      }
    }
  }

  lemma {:induction false} ScanAnswerResultRepeat(
    pre: Fields, key: string, v: Json, post: Fields, index: Option<u32>, votes: Option<u64>)
    requires key in AnswerResultKeys
    requires ScanAnswerResultFields(pre, index, votes).Ok?
    requires AnswerResultHas(index, votes, key) || key in Keys(pre)
    ensures ScanAnswerResultFields(pre + [(key, v)] + post, index, votes) == Err(DuplicateField(key))
  {
    var all := pre + [(key, v)] + post;
    if pre == [] {
      assert all == [(key, v)] + post;
    } else {
      assert all[0] == pre[0] && all[1..] == pre[1..] + [(key, v)] + post;
      assert Keys(pre) == [pre[0].0] + Keys(pre[1..]);
      var (k, w) := pre[0];
      if k == "answer_index" {
        ScanAnswerResultRepeat(pre[1..], key, v, post, Some(DecodeU32(w).value), votes);
      } else if k == "votes" {
        ScanAnswerResultRepeat(pre[1..], key, v, post, index, Some(DecodeU64(w).value));
      } else {
        ScanAnswerResultRepeat(pre[1..], key, v, post, index, votes);
      }
    }
  }

  lemma AnswerResultDuplicateRejected(pre: Fields, key: string, v: Json, post: Fields)
    requires key in AnswerResultKeys
    requires key in Keys(pre)
    requires ScanAnswerResultFields(pre, None, None).Ok?
    ensures DecodeAnswerResult(JObj(pre + [(key, v)] + post)) == Err(DuplicateField(key))
  {
    ScanAnswerResultRepeat(pre, key, v, post, None, None);
  }

  lemma AnswerResultMissingFieldReported(fields: Fields)
    requires ScanAnswerResultFields(fields, None, None).Ok?
    ensures "answer_index" !in Keys(fields) ==>
              DecodeAnswerResult(JObj(fields)) == Err(MissingField("answer_index"))
    ensures "answer_index" in Keys(fields) && "votes" !in Keys(fields) ==>
              DecodeAnswerResult(JObj(fields)) == Err(MissingField("votes"))
    ensures "answer_index" in Keys(fields) && "votes" in Keys(fields) ==>
              DecodeAnswerResult(JObj(fields)).Ok?
  {
    ScanAnswerResultHas(fields, None, None, "answer_index");
    ScanAnswerResultHas(fields, None, None, "votes");
  }
}
