/** What the single scan over an attachment object guarantees: every key
    is one of the nine known names, no known key occurs twice, and the slot
    of a key is filled exactly when the key occurs. A repeated key is
    caught before the discriminator is looked at, whichever variant it
    belongs to. */
module Envelope {
  import opened Results
  import opened Json
  import opened Models
  import opened Codec

  /** Every entry of the object has a recognised key, no key repeats, and
      none names a slot that was already filled before the scan. */
  predicate FreshDistinctKeys(fields: Fields, s: Slots) {
    && (forall i :: 0 <= i < |fields| ==> ParseField(fields[i].0).Some?)
    && (forall i :: 0 <= i < |fields| ==> !Filled(s, ParseField(fields[i].0).value))
    && (forall i, j :: 0 <= i < j < |fields| ==> fields[i].0 != fields[j].0)
  }

  lemma ParseFieldName(f: Field)
    ensures ParseField(FieldName(f)) == Some(f)
  {
    FieldNameInjective(f, ParseField(FieldName(f)).value);
  }

  /** An entry whose key names an empty slot is stored in that slot. */
  lemma ScanEntryStores(f: Field, v: Json, s: Slots)
    requires !Filled(s, f)
    ensures ScanEntry((FieldName(f), v), s) == StoreField(f, v, s)
  {
    ParseFieldName(f);
  }

  /** Scanning a concatenation scans the first part and then goes on from
      the slots it left. */
  lemma {:induction false} ScanAppend(a: Fields, b: Fields, s: Slots)
    ensures ScanFields(a + b, s) ==
      match ScanFields(a, s)
      case Err(e) => Err(e)
      case Ok(t) => ScanFields(b, t)
  {
    if a == [] {
      assert a + b == b;
    } else {
      assert (a + b)[0] == a[0];
      assert (a + b)[1..] == a[1..] + b;
      match ScanEntry(a[0], s)
      case Err(_) =>
      case Ok(next) => ScanAppend(a[1..], b, next);
    }
  }
  lemma ScanStep(fs: Fields, s: Slots, next: Slots)
    requires |fs| > 0 && ScanEntry(fs[0], s) == Ok(next)
    ensures ScanFields(fs, s) == ScanFields(fs[1..], next)
  {
  }

  /** The same step for an entry put in front of the rest of the object. */
  lemma ScanCons(f: Field, v: Json, rest: Fields, s: Slots, next: Slots)
    requires !Filled(s, f) && StoreField(f, v, s) == Ok(next)
    ensures ScanFields([(FieldName(f), v)] + rest, s) == ScanFields(rest, next)
  {
    ScanEntryStores(f, v, s);
    ScanStep([(FieldName(f), v)] + rest, s, next);
    assert ([(FieldName(f), v)] + rest)[1..] == rest;
  }

  // One lemma per field for a well-typed entry in front of the rest of the
  // object. Chaining these keeps each decoder unfolding in a proof of its own.

  lemma ScanTypeUriStep(u: string, rest: Fields, s: Slots)
    requires s.typeUri.None?
    ensures ScanFields([(FieldName(TypeUriField), JStr(u))] + rest, s) == ScanFields(rest, s.(typeUri := Some(u)))
  {
    ScanCons(TypeUriField, JStr(u), rest, s, s.(typeUri := Some(u)));
  }

  lemma ScanMimeTypeStep(m: string, rest: Fields, s: Slots)
    requires s.mimeType.None?
    ensures ScanFields([(FieldName(MimeType), JStr(m))] + rest, s) == ScanFields(rest, s.(mimeType := Some(m)))
  {
    ScanCons(MimeType, JStr(m), rest, s, s.(mimeType := Some(m)));
  }

  lemma ScanUriStep(u: string, rest: Fields, s: Slots)
    requires s.uri.None?
    ensures ScanFields([(FieldName(Uri), JStr(u))] + rest, s) == ScanFields(rest, s.(uri := Some(u)))
  {
    ScanCons(Uri, JStr(u), rest, s, s.(uri := Some(u)));
  }

  lemma ScanQuestionStep(q: string, rest: Fields, s: Slots)
    requires s.question.None?
    ensures ScanFields([(FieldName(Question), JStr(q))] + rest, s) == ScanFields(rest, s.(question := Some(q)))
  {
    ScanCons(Question, JStr(q), rest, s, s.(question := Some(q)));
  }

  lemma ScanProvidedAnswersStep(items: seq<Json>, answers: seq<ProvidedAnswer>, rest: Fields, s: Slots)
    requires s.providedAnswers.None?
    requires DecodeProvidedAnswerItems(items) == Ok(answers)
    ensures ScanFields([(FieldName(ProvidedAnswers), JArr(items))] + rest, s) == ScanFields(rest, s.(providedAnswers := Some(answers)))
  {
    ScanCons(ProvidedAnswers, JArr(items), rest, s, s.(providedAnswers := Some(answers)));
  }

  lemma ScanEndDateStep(d: string, rest: Fields, s: Slots)
    requires s.endDate.None?
    ensures ScanFields([(FieldName(EndDate), JStr(d))] + rest, s) == ScanFields(rest, s.(endDate := Some(d)))
  {
    ScanCons(EndDate, JStr(d), rest, s, s.(endDate := Some(d)));
  }

  lemma ScanAllowsMultipleAnswersStep(b: bool, rest: Fields, s: Slots)
    requires s.allowsMultipleAnswers.None?
    ensures ScanFields([(FieldName(AllowsMultipleAnswers), JBool(b))] + rest, s) == ScanFields(rest, s.(allowsMultipleAnswers := Some(b)))
  {
    ScanCons(AllowsMultipleAnswers, JBool(b), rest, s, s.(allowsMultipleAnswers := Some(b)));
  }

  lemma ScanAllowsAnswerEditsStep(b: bool, rest: Fields, s: Slots)
    requires s.allowsAnswerEdits.None?
    ensures ScanFields([(FieldName(AllowsAnswerEdits), JBool(b))] + rest, s) == ScanFields(rest, s.(allowsAnswerEdits := Some(b)))
  {
    ScanCons(AllowsAnswerEdits, JBool(b), rest, s, s.(allowsAnswerEdits := Some(b)));
  }

  lemma ScanFinalTallyResultsStep(v: Json, t: Option<PollTallyResults>, rest: Fields, s: Slots)
    requires s.finalTallyResults.None?
    requires DecodeOptTally(v) == Ok(t)
    ensures ScanFields([(FieldName(FinalTallyResults), v)] + rest, s) == ScanFields(rest, s.(finalTallyResults := Some(t)))
  {
    ScanCons(FinalTallyResults, v, rest, s, s.(finalTallyResults := Some(t)));
  }

  lemma ExtendsKeepsFilled(s: Slots, t: Slots, f: Field)
    requires Extends(s, t) && Filled(s, f)
    ensures Filled(t, f)
  {
  }

  /** One accepted entry fills exactly the slot its key names. */
  lemma ScanEntryFills(entry: (string, Json), s: Slots)
    requires ScanEntry(entry, s).Ok?
    ensures forall g :: Filled(ScanEntry(entry, s).value, g) <==> Filled(s, g) || FieldName(g) == entry.0
  {
    var f := ParseField(entry.0).value;
    var t := ScanEntry(entry, s).value;
    assert StoreField(f, entry.1, s) == Ok(t);
    FillFilled(f, s, t);
    forall g
      ensures Filled(t, g) <==> Filled(s, g) || FieldName(g) == entry.0
    {
      FieldNameInjective(f, g);
    }
  }

  /** After a successful scan a slot is filled exactly when it was filled
      before or its key occurs in the object. */
  lemma {:induction false} ScanFilled(fields: Fields, s: Slots)
    requires ScanFields(fields, s).Ok?
    ensures forall g :: Filled(ScanFields(fields, s).value, g) <==> Filled(s, g) || FieldName(g) in Keys(fields)
  {
    if fields != [] {
      var next := ScanEntry(fields[0], s).value;
      ScanEntryFills(fields[0], s);
      ScanFilled(fields[1..], next);
      assert Keys(fields) == [fields[0].0] + Keys(fields[1..]);
    }
  }

  /** A successful scan saw only known keys, each once, none already filled. */
  lemma {:induction false} ScanKeysFreshDistinct(fields: Fields, s: Slots)
    requires ScanFields(fields, s).Ok?
    ensures FreshDistinctKeys(fields, s)
  {
    if fields != [] {
      var next := ScanEntry(fields[0], s).value;
      var f0 := ParseField(fields[0].0).value;
      ScanEntryFills(fields[0], s);
      ScanKeysFreshDistinct(fields[1..], next);
      forall i | 1 <= i < |fields|
        ensures !Filled(s, ParseField(fields[i].0).value)
        ensures fields[0].0 != fields[i].0
      {
        assert fields[i] == fields[1..][i - 1];
        var g := ParseField(fields[i].0).value;
        if Filled(s, g) {
          ExtendsKeepsFilled(s, next, g);
        }
        assert !Filled(next, g);
      }
      forall i, j | 0 <= i < j < |fields|
        ensures fields[i].0 != fields[j].0
      {
        if i > 0 {
          assert fields[i] == fields[1..][i - 1];
          assert fields[j] == fields[1..][j - 1];
        }
      }
    }
  }

  /** A successfully decoded object has known, pairwise distinct keys. */
  lemma DecodedKeysDistinct(fields: Fields)
    requires DecodePostAttachment(JObj(fields)).Ok?
    ensures FreshDistinctKeys(fields, EmptySlots)
  {
    ScanKeysFreshDistinct(fields, EmptySlots);
  }

  /** The second occurrence of a known key fails the decode with a
      duplicate naming that key, whatever its value, whatever follows, and
      whichever variant the object would have resolved to. */
  lemma DuplicateKeyRejected(pre: Fields, key: string, v: Json, post: Fields)
    requires key in FIELDS
    requires key in Keys(pre)
    requires ScanFields(pre, EmptySlots).Ok?
    ensures DecodePostAttachment(JObj(pre + [(key, v)] + post)) == Err(DuplicateField(key))
  {
    var t := ScanFields(pre, EmptySlots).value;
    ScanAppend(pre, [(key, v)] + post, EmptySlots);
    assert pre + [(key, v)] + post == pre + ([(key, v)] + post);
    ScanFilled(pre, EmptySlots);
    assert Filled(t, ParseField(key).value);
    ScanStepErr([(key, v)] + post, t);
  }

  lemma ScanStepErr(fs: Fields, s: Slots)
    requires |fs| > 0 && ScanEntry(fs[0], s).Err?
    ensures ScanFields(fs, s) == Err(ScanEntry(fs[0], s).error)
  {
  }

  /** An explicit null tally fills its slot, so a second tally key is a
      duplicate even though the first one carried no value. */
  lemma DuplicateNullTallyRejected(v: Json, post: Fields)
    ensures DecodePostAttachment(JObj([("final_tally_results", JNull), ("final_tally_results", v)] + post))
         == Err(DuplicateField("final_tally_results"))
  {
    var pre := [("final_tally_results", JNull)];
    ScanEntryStores(FinalTallyResults, JNull, EmptySlots);
    ScanStep(pre, EmptySlots, EmptySlots.(finalTallyResults := Some(None)));
    DuplicateKeyRejected(pre, "final_tally_results", v, post);
    assert pre + [("final_tally_results", v)] + post
        == [("final_tally_results", JNull), ("final_tally_results", v)] + post;
  }

  /** A key outside the nine known names fails the decode, naming the key. */
  lemma UnknownKeyRejected(pre: Fields, key: string, v: Json, post: Fields)
    requires key !in FIELDS
    requires ScanFields(pre, EmptySlots).Ok?
    ensures DecodePostAttachment(JObj(pre + [(key, v)] + post)) == Err(UnknownField(key))
  {
    var t := ScanFields(pre, EmptySlots).value;
    ScanAppend(pre, [(key, v)] + post, EmptySlots);
    assert pre + [(key, v)] + post == pre + ([(key, v)] + post);
    ScanStepErr([(key, v)] + post, t);
  }
}
