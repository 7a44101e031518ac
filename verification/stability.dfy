/** What re-encoding a decoded object gives back. Decoding then encoding
    is the identity on values, but not on the keys of a wire object: the
    decoder forgets keys the variant does not use, and the encoder writes
    the tally key even where the object left it out. */
module Stability {
  import opened Results
  import opened Json
  import opened Models
  import opened Codec
  import opened Envelope
  import opened RoundTrip
  import opened Resolution
  import opened Encoding

  /** A media object carrying a poll question decodes to the plain media,
      which re-encodes with three keys where the object had four. */
  lemma ReencodingDropsPollKeys(mimeType: string, uri: string, question: string)
    ensures DecodePostAttachment(JObj(EncodePostAttachment(Media(mimeType, uri)).fields + [(FieldName(Question), JStr(question))]))
         == Ok(Media(mimeType, uri))
    ensures |EncodePostAttachment(Media(mimeType, uri)).fields| == 3
  {
    var fs := EncodePostAttachment(Media(mimeType, uri)).fields;
    var extra := [(FieldName(Question), JStr(question))];
    ScanEncoded(Media(mimeType, uri));
    ScanQuestionStep(question, [], SlotsOf(Media(mimeType, uri)));
    ScanAppend(fs, extra, EmptySlots);
    assert fs + extra + [] == fs + extra;
    assert fs + [] == fs;
    PostAttachmentRoundTrip(Media(mimeType, uri));
    FieldNameInjective(Question, TypeUriField);
    FieldNameInjective(Question, MimeType);
    FieldNameInjective(Question, Uri);
    MediaIgnoresPollKeys(fs, extra, [], mimeType, uri);
  }

  /** Before its last entry, a poll's encoding has no tally key. */
  lemma PollPrefixLacksTally(x: PostAttachment)
    requires x.Poll?
    ensures |EncodePostAttachment(x).fields| == 7
    ensures FieldName(FinalTallyResults) !in Keys(EncodePostAttachment(x).fields[..6])
  {
    var fs := EncodePostAttachment(x).fields;
    TallyKeyAlwaysPresent(x);
    EncodedFieldsWellFormed(x);
    forall i | 0 <= i < 6
      ensures Keys(fs[..6])[i] != FieldName(FinalTallyResults)
    {
      assert Keys(fs[..6])[i] == fs[i].0 != fs[6].0;
    }
  }

  /** A poll without a tally, written without its tally key, still decodes;
      re-encoding it adds the key back as null. */
  lemma ReencodingAddsNullTally(x: PostAttachment)
    requires x.Poll? && x.finalTallyResults.None?
    ensures DecodePostAttachment(JObj(EncodePostAttachment(x).fields[..6])) == Ok(x)
    ensures EncodePostAttachment(x).fields == EncodePostAttachment(x).fields[..6] + [(FieldName(FinalTallyResults), JNull)]
  {
    var fs := EncodePostAttachment(x).fields;
    TallyKeyAlwaysPresent(x);
    assert fs == fs[..6] + [fs[6]];
    PollPrefixLacksTally(x);
    TallyNullSameAsAbsent(fs[..6], []);
    assert fs[..6] + [(FieldName(FinalTallyResults), JNull)] + [] == fs;
    assert fs[..6] + [] == fs[..6];
    PostAttachmentRoundTrip(x);
  }
}
