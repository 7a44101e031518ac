/** What the resolver reports once the scan has succeeded: which variant is
    built, which missing field is named first, and which slots it ignores.
    Each lemma is stated on whole objects, so it describes the decoder as a
    caller sees it. */
module Resolution {
  import opened Results
  import opened Json
  import opened Models
  import opened Primitives
  import opened Codec
  import opened Envelope

  /** The first of the demanded fields whose key does not occur, in the
      order they are demanded. */
  function FirstAbsent(required: seq<Field>, keys: seq<string>): (r: Option<Field>)
    ensures r.None? <==> forall i :: 0 <= i < |required| ==> FieldName(required[i]) in keys
    ensures r.Some? ==>
              exists n :: 0 <= n < |required| && required[n] == r.value && FieldName(required[n]) !in keys &&
                          forall i :: 0 <= i < n ==> FieldName(required[i]) in keys
  {
    if required == [] then None
    else if FieldName(required[0]) !in keys then Some(required[0])
    else
      var r := FirstAbsent(required[1..], keys);
      if r.Some? then
        var n :| 0 <= n < |required[1..]| && required[1..][n] == r.value && FieldName(required[1..][n]) !in keys &&
                 forall i :: 0 <= i < n ==> FieldName(required[1..][i]) in keys;
        assert required[n + 1] == r.value;
        assert forall i :: 0 <= i < n + 1 ==> FieldName(required[i]) in keys by {
          forall i | 0 <= i < n + 1
            ensures FieldName(required[i]) in keys
          {
            if i > 0 {
              assert required[i] == required[1..][i - 1];
            }
          }
        }
        r
      else
        assert forall i :: 0 <= i < |required| ==> FieldName(required[i]) in keys by {
          forall i | 0 <= i < |required|
            ensures FieldName(required[i]) in keys
          {
            if i > 0 {
              assert required[i] == required[1..][i - 1];
            }
          }
        }
        r
  }

  /** The entry carries the discriminator with one of the two registered
      type URIs. */
  predicate NamesKnownType(entry: (string, Json)) {
    entry.0 == FieldName(TypeUriField) && entry.1.JStr? && KindOfUri(entry.1.s).Some?
  }

  lemma KindOfTypeUri(k: Kind)
    ensures KindOfUri(TypeUri(k)) == Some(k)
  {
  }

  /** One entry changes the discriminator slot only by being a string
      "@type" entry. */
  lemma EntryTypeUri(entry: (string, Json), s: Slots)
    requires ScanEntry(entry, s).Ok?
    ensures ScanEntry(entry, s).value.typeUri == s.typeUri ||
            entry == (FieldName(TypeUriField), JStr(ScanEntry(entry, s).value.typeUri.value))
  {
    var f := ParseField(entry.0).value;
    var next := ScanEntry(entry, s).value;
    if f == TypeUriField {
      assert StoreField(f, entry.1, s) == Ok(next);
      assert next.typeUri == Some(DecodeString(entry.1).value);
    }
  }

  /** A filled discriminator slot was filled by a string entry of the object,
      unless it was already filled before the scan. */
  lemma {:induction false} TypeUriProvenance(fields: Fields, s: Slots)
    requires ScanFields(fields, s).Ok?
    requires s.typeUri.None?
    ensures ScanFields(fields, s).value.typeUri.Some? ==>
              (FieldName(TypeUriField), JStr(ScanFields(fields, s).value.typeUri.value)) in fields
  {
    var t := ScanFields(fields, s).value;
    if fields != [] && t.typeUri.Some? {
      var next := ScanEntry(fields[0], s).value;
      assert ScanFields(fields, s) == ScanFields(fields[1..], next);
      EntryTypeUri(fields[0], s);
      if next.typeUri.Some? {
        assert t.typeUri == next.typeUri;
        assert fields[0] == (FieldName(TypeUriField), JStr(t.typeUri.value));
      } else {
        TypeUriProvenance(fields[1..], next);
        var e := (FieldName(TypeUriField), JStr(t.typeUri.value));
        var i :| 0 <= i < |fields[1..]| && fields[1..][i] == e;
        assert fields[i + 1] == e;
      }
    }
  }

  /** The discriminator slot holds the URI of the object's "@type" entry. */
  lemma {:induction false} TypeUriOfScan(fields: Fields, s: Slots, uri: string)
    requires ScanFields(fields, s).Ok?
    requires (FieldName(TypeUriField), JStr(uri)) in fields
    ensures ScanFields(fields, s).value.typeUri == Some(uri)
  {
    var next := ScanEntry(fields[0], s).value;
    assert ScanFields(fields, s) == ScanFields(fields[1..], next);
    if fields[0] == (FieldName(TypeUriField), JStr(uri)) {
      ParseFieldName(TypeUriField);
      ScanEntryStores(TypeUriField, JStr(uri), s);
      assert next.typeUri == Some(uri);
    } else {
      assert (FieldName(TypeUriField), JStr(uri)) in fields[1..];
      TypeUriOfScan(fields[1..], next, uri);
    }
  }

  /** An object without a discriminator naming a registered type fails with
      a missing "@type", also when "@type" is present with another URI. The
      scan's own errors come first, hence the first precondition. */
  lemma MissingTypeReported(fields: Fields)
    requires ScanFields(fields, EmptySlots).Ok?
    requires forall i :: 0 <= i < |fields| ==> !NamesKnownType(fields[i])
    ensures DecodePostAttachment(JObj(fields)) == Err(MissingField("@type"))
  {
    var t := ScanFields(fields, EmptySlots).value;
    TypeUriProvenance(fields, EmptySlots);
    if t.typeUri.Some? {
      var i :| 0 <= i < |fields| && fields[i] == (FieldName(TypeUriField), JStr(t.typeUri.value));
      assert !NamesKnownType(fields[i]);
    }
  }

  /** With a media discriminator, Resolve names the first absent media
      field, or builds a media value. */
  lemma ResolveMediaFirstAbsent(s: Slots, keys: seq<string>)
    requires s.typeUri == Some(MediaTypeUri)
    requires Filled(s, MimeType) <==> FieldName(MimeType) in keys
    requires Filled(s, Uri) <==> FieldName(Uri) in keys
    ensures FirstAbsent(RequiredFields(MediaKind), keys).Some? ==>
              Resolve(s) == Err(MissingField(FieldName(FirstAbsent(RequiredFields(MediaKind), keys).value)))
    ensures FirstAbsent(RequiredFields(MediaKind), keys).None? ==> Resolve(s).Ok? && Resolve(s).value.Media?
  {
    var r0 := [MimeType, Uri];
    var r1 := [Uri];
    assert r0[1..] == r1 && r1[1..] == [];
    assert FirstAbsent(r0, keys) == if FieldName(MimeType) !in keys then Some(MimeType) else FirstAbsent(r1, keys);
    assert FirstAbsent(r1, keys) == if FieldName(Uri) !in keys then Some(Uri) else None;
  }

  /** The mandatory poll fields are checked in declaration order. */
  lemma FirstAbsentPoll(keys: seq<string>)
    ensures FirstAbsent(RequiredFields(PollKind), keys) ==
      if FieldName(Question) !in keys then Some(Question)
      else if FieldName(ProvidedAnswers) !in keys then Some(ProvidedAnswers)
      else if FieldName(EndDate) !in keys then Some(EndDate)
      else if FieldName(AllowsMultipleAnswers) !in keys then Some(AllowsMultipleAnswers)
      else if FieldName(AllowsAnswerEdits) !in keys then Some(AllowsAnswerEdits)
      else None
  {
    var r0 := [Question, ProvidedAnswers, EndDate, AllowsMultipleAnswers, AllowsAnswerEdits];
    var r1 := [ProvidedAnswers, EndDate, AllowsMultipleAnswers, AllowsAnswerEdits];
    var r2 := [EndDate, AllowsMultipleAnswers, AllowsAnswerEdits];
    var r3 := [AllowsMultipleAnswers, AllowsAnswerEdits];
    var r4 := [AllowsAnswerEdits];
    assert r0[1..] == r1 && r1[1..] == r2 && r2[1..] == r3 && r3[1..] == r4 && r4[1..] == [];
    assert FirstAbsent(r0, keys) == if FieldName(Question) !in keys then Some(Question) else FirstAbsent(r1, keys);
    assert FirstAbsent(r1, keys) == if FieldName(ProvidedAnswers) !in keys then Some(ProvidedAnswers) else FirstAbsent(r2, keys);
    assert FirstAbsent(r2, keys) == if FieldName(EndDate) !in keys then Some(EndDate) else FirstAbsent(r3, keys);
    assert FirstAbsent(r3, keys) == if FieldName(AllowsMultipleAnswers) !in keys then Some(AllowsMultipleAnswers) else FirstAbsent(r4, keys);
    assert FirstAbsent(r4, keys) == if FieldName(AllowsAnswerEdits) !in keys then Some(AllowsAnswerEdits) else None;
  }

  /** With a poll discriminator, Resolve checks the same fields in the same
      order, and succeeds with a poll when all are filled. */
  lemma ResolvePollOrder(s: Slots)
    requires s.typeUri == Some(PollTypeUri)
    ensures Resolve(s) ==
      if !Filled(s, Question) then Err(MissingField(FieldName(Question)))
      else if !Filled(s, ProvidedAnswers) then Err(MissingField(FieldName(ProvidedAnswers)))
      else if !Filled(s, EndDate) then Err(MissingField(FieldName(EndDate)))
      else if !Filled(s, AllowsMultipleAnswers) then Err(MissingField(FieldName(AllowsMultipleAnswers)))
      else if !Filled(s, AllowsAnswerEdits) then Err(MissingField(FieldName(AllowsAnswerEdits)))
      else Ok(Poll(s.question.value, s.providedAnswers.value, s.endDate.value,
                   s.allowsMultipleAnswers.value, s.allowsAnswerEdits.value, Flatten(s.finalTallyResults)))
  {
  }

  /** With a poll discriminator, Resolve names the first absent mandatory
      poll field, or builds a poll. */
  lemma ResolvePollFirstAbsent(s: Slots, keys: seq<string>)
    requires s.typeUri == Some(PollTypeUri)
    requires Filled(s, Question) <==> FieldName(Question) in keys
    requires Filled(s, ProvidedAnswers) <==> FieldName(ProvidedAnswers) in keys
    requires Filled(s, EndDate) <==> FieldName(EndDate) in keys
    requires Filled(s, AllowsMultipleAnswers) <==> FieldName(AllowsMultipleAnswers) in keys
    requires Filled(s, AllowsAnswerEdits) <==> FieldName(AllowsAnswerEdits) in keys
    ensures FirstAbsent(RequiredFields(PollKind), keys).Some? ==>
              Resolve(s) == Err(MissingField(FieldName(FirstAbsent(RequiredFields(PollKind), keys).value)))
    ensures FirstAbsent(RequiredFields(PollKind), keys).None? ==> Resolve(s).Ok? && Resolve(s).value.Poll?
  {
    FirstAbsentPoll(keys);
    ResolvePollOrder(s);
  }

  /** A scanned object whose "@type" names kind k fails on the first of k's
      required fields, in declaration order, that the object lacks; when it
      lacks none it decodes to a value of kind k. */
  lemma MissingRequiredFieldReported(fields: Fields, k: Kind)
    requires ScanFields(fields, EmptySlots).Ok?
    requires (FieldName(TypeUriField), JStr(TypeUri(k))) in fields
    ensures FirstAbsent(RequiredFields(k), Keys(fields)).Some? ==>
              DecodePostAttachment(JObj(fields))
              == Err(MissingField(FieldName(FirstAbsent(RequiredFields(k), Keys(fields)).value)))
    ensures FirstAbsent(RequiredFields(k), Keys(fields)).None? ==>
              DecodePostAttachment(JObj(fields)).Ok? && KindOf(DecodePostAttachment(JObj(fields)).value) == k
  {
    var t := ScanFields(fields, EmptySlots).value;
    var keys := Keys(fields);
    DecodeViaScan(fields);
    ScanFilled(fields, EmptySlots);
    TypeUriOfScan(fields, EmptySlots, TypeUri(k));
    match k
    case MediaKind =>
      assert Filled(t, MimeType) <==> FieldName(MimeType) in keys;
      assert Filled(t, Uri) <==> FieldName(Uri) in keys;
      ResolveMediaFirstAbsent(t, keys);
    case PollKind =>
      assert Filled(t, Question) <==> FieldName(Question) in keys;
      assert Filled(t, ProvidedAnswers) <==> FieldName(ProvidedAnswers) in keys;
      assert Filled(t, EndDate) <==> FieldName(EndDate) in keys;
      assert Filled(t, AllowsMultipleAnswers) <==> FieldName(AllowsMultipleAnswers) in keys;
      assert Filled(t, AllowsAnswerEdits) <==> FieldName(AllowsAnswerEdits) in keys;
      ResolvePollFirstAbsent(t, keys);
  }

  // ---------------------------------------------------------------------
  // The tally slot

  /** Decoding a value never depends on the tally slot, except that the
      tally field itself writes it. */
  lemma StoreFieldIgnoresTally(f: Field, v: Json, s: Slots, o: Option<Option<PollTallyResults>>)
    requires f != FinalTallyResults
    ensures StoreField(f, v, s.(finalTallyResults := o)) ==
              match StoreField(f, v, s)
              case Err(e) => Err(e)
              case Ok(t) => Ok(t.(finalTallyResults := o))
  {
  }

  /** Scanning entries without a tally key carries the tally slot through
      unchanged. */
  lemma {:induction false} ScanIgnoresTally(fields: Fields, s: Slots, o: Option<Option<PollTallyResults>>)
    requires FieldName(FinalTallyResults) !in Keys(fields)
    ensures ScanFields(fields, s.(finalTallyResults := o)) ==
              match ScanFields(fields, s)
              case Err(e) => Err(e)
              case Ok(t) => Ok(t.(finalTallyResults := o))
  {
    if fields != [] {
      var s' := s.(finalTallyResults := o);
      assert Keys(fields)[0] == fields[0].0;
      match ParseField(fields[0].0)
      case None =>
      case Some(f) =>
        assert f != FinalTallyResults;
        assert Filled(s', f) == Filled(s, f);
        if !Filled(s, f) {
          StoreFieldIgnoresTally(f, fields[0].1, s, o);
          match StoreField(f, fields[0].1, s)
          case Err(_) =>
          case Ok(next) =>
            assert Keys(fields[1..]) == Keys(fields)[1..];
            ScanIgnoresTally(fields[1..], next, o);
        }
    }
  }

  /** Resolve reads the tally slot only through Flatten, and an explicit
      null flattens to the same None as an absent key. */
  lemma ResolveNullTally(s: Slots)
    ensures Resolve(s.(finalTallyResults := Some(None))) == Resolve(s.(finalTallyResults := None))
  {
  }

  /** The part of the decoder after the scan. */
  function Finish(r: Result<Slots, DecodeError>): Result<PostAttachment, DecodeError> {
    match r
    case Err(e) => Err(e)
    case Ok(s) => Resolve(s)
  }

  lemma DecodeViaScan(fields: Fields)
    ensures DecodePostAttachment(JObj(fields)) == Finish(ScanFields(fields, EmptySlots))
  {
  }

  /** Decoding a concatenation: the scan of the first part, then the rest. */
  lemma FinishAppend(a: Fields, b: Fields)
    ensures Finish(ScanFields(a + b, EmptySlots)) ==
              match ScanFields(a, EmptySlots)
              case Err(e) => Err(e)
              case Ok(t) => Finish(ScanFields(b, t))
  {
    ScanAppend(a, b, EmptySlots);
  }

  /** An accepted entry with another key leaves the tally slot alone. */
  lemma EntryKeepsTally(entry: (string, Json), s: Slots)
    requires ScanEntry(entry, s).Ok?
    requires entry.0 != FieldName(FinalTallyResults)
    ensures ScanEntry(entry, s).value.finalTallyResults == s.finalTallyResults
  {
    var f := ParseField(entry.0).value;
    assert f != FinalTallyResults;
  }

  /** After a successful scan the tally slot is empty when no tally key occurred. */
  lemma {:induction false} ScanLeavesTallyEmpty(fields: Fields, s: Slots)
    requires ScanFields(fields, s).Ok?
    requires s.finalTallyResults.None?
    requires FieldName(FinalTallyResults) !in Keys(fields)
    ensures ScanFields(fields, s).value.finalTallyResults.None?
  {
    if fields != [] {
      var next := ScanEntry(fields[0], s).value;
      assert Keys(fields) == [fields[0].0] + Keys(fields[1..]);
      EntryKeepsTally(fields[0], s);
      ScanLeavesTallyEmpty(fields[1..], next);
    }
  }

  /** A null tally entry in front of tally-free entries, read from slots
      without a tally, decodes like those entries alone. */
  lemma NullTallyThenRest(post: Fields, t: Slots)
    requires t.finalTallyResults.None?
    requires FieldName(FinalTallyResults) !in Keys(post)
    ensures Finish(ScanFields([(FieldName(FinalTallyResults), JNull)] + post, t)) == Finish(ScanFields(post, t))
  {
    ScanFinalTallyResultsStep(JNull, None, post, t);
    ScanIgnoresTally(post, t, Some(None));
    assert t.(finalTallyResults := None) == t;
    match ScanFields(post, t)
    case Err(_) =>
    case Ok(u) =>
      ScanLeavesTallyEmpty(post, t);
      assert u.(finalTallyResults := None) == u;
      ResolveNullTally(u);
  }

  /** Inserting `"final_tally_results": null` into an object without a tally
      key changes nothing: null and absent decode alike. */
  lemma TallyNullSameAsAbsent(pre: Fields, post: Fields)
    requires FieldName(FinalTallyResults) !in Keys(pre)
    requires FieldName(FinalTallyResults) !in Keys(post)
    ensures DecodePostAttachment(JObj(pre + [(FieldName(FinalTallyResults), JNull)] + post))
         == DecodePostAttachment(JObj(pre + post))
  {
    var entry := (FieldName(FinalTallyResults), JNull);
    assert pre + [entry] + post == pre + ([entry] + post);
    DecodeViaScan(pre + ([entry] + post));
    DecodeViaScan(pre + post);
    FinishAppend(pre, [entry] + post);
    FinishAppend(pre, post);
    if ScanFields(pre, EmptySlots).Ok? {
      ScanLeavesTallyEmpty(pre, EmptySlots);
      NullTallyThenRest(post, ScanFields(pre, EmptySlots).value);
    }
  }

  /** A decoded poll carries the flattened tally slot. */
  lemma ResolvePollTally(s: Slots)
    requires Resolve(s).Ok? && Resolve(s).value.Poll?
    ensures Resolve(s).value.finalTallyResults == Flatten(s.finalTallyResults)
  {
  }

  /** A poll decoded from an object without a tally key has no tally. */
  lemma AbsentTallyIsNone(fields: Fields)
    requires FieldName(FinalTallyResults) !in Keys(fields)
    requires DecodePostAttachment(JObj(fields)).Ok?
    requires DecodePostAttachment(JObj(fields)).value.Poll?
    ensures DecodePostAttachment(JObj(fields)).value.finalTallyResults.None?
  {
    DecodeViaScan(fields);
    ScanLeavesTallyEmpty(fields, EmptySlots);
    ResolvePollTally(ScanFields(fields, EmptySlots).value);
  }

  // ---------------------------------------------------------------------
  // Fields of the other variant

  /** The fields a media value is built from. */
  predicate IsMediaField(f: Field) {
    f == TypeUriField || f == MimeType || f == Uri
  }

  /** The keys of those fields. */
  predicate IsMediaKey(key: string) {
    ParseField(key).Some? && IsMediaField(ParseField(key).value)
  }

  /** A media resolves from its discriminator and its own two slots only. */
  lemma ResolveMediaProject(s: Slots)
    requires s.typeUri == Some(MediaTypeUri)
    ensures Resolve(s) == Resolve(Project(s, MediaKind))
  {
  }

  /** Filling a slot of the other variant leaves the media slots alone. */
  lemma FillKeepsMediaSlots(f: Field, s: Slots, t: Slots)
    requires !IsMediaField(f)
    ensures Project(Fill(f, s, t), MediaKind) == Project(s, MediaKind)
  {
  }

  /** A media slot is decoded from the entry's value alone. */
  lemma StoreMediaSlotCongruent(f: Field, v: Json, s: Slots, t: Slots)
    requires IsMediaField(f)
    requires StoreField(f, v, s).Ok? && StoreField(f, v, t).Ok?
    requires Project(s, MediaKind) == Project(t, MediaKind)
    ensures Project(StoreField(f, v, s).value, MediaKind) == Project(StoreField(f, v, t).value, MediaKind)
  {
  }

  /** An accepted entry under any other key leaves the media slots alone. */
  lemma EntryKeepsMediaSlots(entry: (string, Json), s: Slots)
    requires ScanEntry(entry, s).Ok?
    requires !IsMediaKey(entry.0)
    ensures Project(ScanEntry(entry, s).value, MediaKind) == Project(s, MediaKind)
  {
    var f := ParseField(entry.0).value;
    var r := ScanEntry(entry, s).value;
    assert r == Fill(f, s, r);
    assert !IsMediaField(f);
    FillKeepsMediaSlots(f, s, r);
  }

  lemma {:induction false} ScanKeepsMediaSlots(fields: Fields, s: Slots)
    requires ScanFields(fields, s).Ok?
    requires forall i :: 0 <= i < |fields| ==> !IsMediaKey(fields[i].0)
    ensures Project(ScanFields(fields, s).value, MediaKind) == Project(s, MediaKind)
  {
    if fields != [] {
      var next := ScanEntry(fields[0], s).value;
      EntryKeepsMediaSlots(fields[0], s);
      ScanStep(fields, s, next);
      assert forall i :: 0 <= i < |fields[1..]| ==> fields[1..][i] == fields[i + 1];
      ScanKeepsMediaSlots(fields[1..], next);
    }
  }

  /** An accepted entry sets a media slot from the entry alone, so scans
      that agree on the media slots keep agreeing. */
  lemma EntryMediaSlotsCongruent(entry: (string, Json), s: Slots, t: Slots)
    requires ScanEntry(entry, s).Ok? && ScanEntry(entry, t).Ok?
    requires Project(s, MediaKind) == Project(t, MediaKind)
    ensures Project(ScanEntry(entry, s).value, MediaKind) == Project(ScanEntry(entry, t).value, MediaKind)
  {
    var f := ParseField(entry.0).value;
    var rs, rt := ScanEntry(entry, s).value, ScanEntry(entry, t).value;
    assert entry == (FieldName(f), entry.1);
    if IsMediaField(f) {
      ScanEntryStores(f, entry.1, s);
      ScanEntryStores(f, entry.1, t);
      StoreMediaSlotCongruent(f, entry.1, s, t);
    } else {
      assert rs == Fill(f, s, rs) && rt == Fill(f, t, rt);
      FillKeepsMediaSlots(f, s, rs);
      FillKeepsMediaSlots(f, t, rt);
    }
  }

  lemma {:induction false} ScanMediaSlotsCongruent(fields: Fields, s: Slots, t: Slots)
    requires ScanFields(fields, s).Ok? && ScanFields(fields, t).Ok?
    requires Project(s, MediaKind) == Project(t, MediaKind)
    ensures Project(ScanFields(fields, s).value, MediaKind) == Project(ScanFields(fields, t).value, MediaKind)
  {
    if fields != [] {
      var s1 := ScanEntry(fields[0], s).value;
      var t1 := ScanEntry(fields[0], t).value;
      EntryMediaSlotsCongruent(fields[0], s, t);
      ScanStep(fields, s, s1);
      ScanStep(fields, t, t1);
      ScanMediaSlotsCongruent(fields[1..], s1, t1);
    }
  }

  /** A media object ignores the poll keys it carries, wherever they stand:
      as long as the whole object scans (known, unrepeated, well-typed
      keys), inserting them changes nothing about the media it decodes to. */
  lemma MediaIgnoresPollKeys(pre: Fields, extra: Fields, post: Fields, mimeType: string, uri: string)
    requires forall i :: 0 <= i < |extra| ==> !IsMediaKey(extra[i].0)
    requires ScanFields(pre + extra + post, EmptySlots).Ok?
    requires DecodePostAttachment(JObj(pre + post)) == Ok(Media(mimeType, uri))
    ensures DecodePostAttachment(JObj(pre + extra + post)) == Ok(Media(mimeType, uri))
  {
    ScanAppend(pre + extra, post, EmptySlots);
    ScanAppend(pre, extra, EmptySlots);
    ScanAppend(pre, post, EmptySlots);
    var sp := ScanFields(pre, EmptySlots).value;
    var se := ScanFields(extra, sp).value;
    var sx := ScanFields(post, se).value;
    var sy := ScanFields(post, sp).value;
    DecodeViaScan(pre + post);
    DecodeViaScan(pre + extra + post);
    ScanKeepsMediaSlots(extra, sp);
    ScanMediaSlotsCongruent(post, se, sp);
    assert sy.typeUri == Some(MediaTypeUri);
    ResolveMediaProject(sx);
    ResolveMediaProject(sy);
  }
}
