/** The polymorphic JSON codec of a post attachment. On the wire an
    attachment is one flat object: an `@type` discriminator holding a type
    URI, next to the fields of the variant it names.

    Decoding has two phases. A single scan over the object's entries fills
    one slot per recognised key and rejects unknown and repeated keys; the
    resolver then reads the discriminator and requires the mandatory slots
    of that variant only. The records an attachment recurses through
    (provided answers, attachments, tally results) use the field-by-field
    mapping of derived records. */
module Codec {
  import opened Results
  import opened Json
  import opened Decimal
  import opened Models
  import opened Primitives

  // ---------------------------------------------------------------------
  // Type-URI registry

  const MediaTypeUri: string := "/desmos.posts.v1.Media"
  const PollTypeUri: string := "/desmos.posts.v1.Poll"

  datatype Kind = MediaKind | PollKind

  function KindOf(x: PostAttachment): Kind {
    match x
    case Media(_, _) => MediaKind
    case Poll(_, _, _, _, _, _) => PollKind
  }

  function TypeUri(k: Kind): string {
    match k
    case MediaKind => MediaTypeUri
    case PollKind => PollTypeUri
  }

  /** Exact, case-sensitive lookup of a type URI; Media is tried first. */
  function KindOfUri(uri: string): (r: Option<Kind>)
    ensures r.Some? <==> uri == MediaTypeUri || uri == PollTypeUri
    ensures r.Some? ==> TypeUri(r.value) == uri
  {
    if uri == MediaTypeUri then Some(MediaKind)
    else if uri == PollTypeUri then Some(PollKind)
    else None
  }

  // ---------------------------------------------------------------------
  // Envelope field identifiers

  /** The nine keys an attachment object may carry; there is no catch-all. */
  datatype Field =
    | TypeUriField
    | MimeType
    | Uri
    | Question
    | ProvidedAnswers
    | EndDate
    | AllowsMultipleAnswers
    | AllowsAnswerEdits
    | FinalTallyResults

  const FIELDS: seq<string> := [
    "@type",
    "mime_type",
    "uri",
    "question",
    "provided_answers",
    "end_date",
    "allows_multiple_answers",
    "allows_answer_edits",
    "final_tally_results"
  ]

  function FieldName(f: Field): (name: string)
    ensures name in FIELDS
  {
    match f
    case TypeUriField => "@type"
    case MimeType => "mime_type"
    case Uri => "uri"
    case Question => "question"
    case ProvidedAnswers => "provided_answers"
    case EndDate => "end_date"
    case AllowsMultipleAnswers => "allows_multiple_answers"
    case AllowsAnswerEdits => "allows_answer_edits"
    case FinalTallyResults => "final_tally_results"
  }

  /** Identifies an envelope key; only the nine exact names are known. */
  function ParseField(key: string): (r: Option<Field>)
    ensures r.Some? <==> key in FIELDS
    ensures r.Some? ==> FieldName(r.value) == key
  {
    if key == "@type" then Some(TypeUriField)
    else if key == "mime_type" then Some(MimeType)
    else if key == "uri" then Some(Uri)
    else if key == "question" then Some(Question)
    else if key == "provided_answers" then Some(ProvidedAnswers)
    else if key == "end_date" then Some(EndDate)
    else if key == "allows_multiple_answers" then Some(AllowsMultipleAnswers)
    else if key == "allows_answer_edits" then Some(AllowsAnswerEdits)
    else if key == "final_tally_results" then Some(FinalTallyResults)
    else None
  }

  /** The mandatory fields of each variant, in the order they are demanded. */
  function RequiredFields(k: Kind): seq<Field> {
    match k
    case MediaKind => [MimeType, Uri]
    case PollKind => [Question, ProvidedAnswers, EndDate, AllowsMultipleAnswers, AllowsAnswerEdits]
  }

  // ---------------------------------------------------------------------
  // Encoder

  /** The discriminator first, then the variant's fields in a fixed order.
      A poll always carries `final_tally_results`, null when there is none. */
  function EncodePostAttachment(x: PostAttachment): Json
    decreases x
  {
    match x
    case Media(mimeType, uri) =>
      JObj([
        (FieldName(TypeUriField), JStr(MediaTypeUri)),
        (FieldName(MimeType), JStr(mimeType)),
        (FieldName(Uri), JStr(uri))
      ])
    case Poll(question, answers, endDate, multiple, edits, tally) =>
      JObj([
        (FieldName(TypeUriField), JStr(PollTypeUri)),
        (FieldName(Question), JStr(question)),
        (FieldName(ProvidedAnswers), JArr(EncodeProvidedAnswers(answers))),
        (FieldName(EndDate), JStr(endDate)),
        (FieldName(AllowsMultipleAnswers), JBool(multiple)),
        (FieldName(AllowsAnswerEdits), JBool(edits)),
        (FieldName(FinalTallyResults), EncodeOptTally(tally))
      ])
  }

  function EncodeProvidedAnswers(answers: seq<ProvidedAnswer>): (items: seq<Json>)
    decreases answers
    ensures |items| == |answers|
    ensures forall i :: 0 <= i < |answers| ==> items[i] == EncodeProvidedAnswer(answers[i])
  {
    if answers == [] then []
    else [EncodeProvidedAnswer(answers[0])] + EncodeProvidedAnswers(answers[1..])
  }

  function EncodeProvidedAnswer(a: ProvidedAnswer): Json
    decreases a
  {
    JObj([
      ("text", EncodeOptString(a.text)),
      ("attachments", JArr(EncodeAttachments(a.attachments)))
    ])
  }

  function EncodeAttachments(atts: seq<Attachment>): (items: seq<Json>)
    decreases atts
    ensures |items| == |atts|
    ensures forall i :: 0 <= i < |atts| ==> items[i] == EncodeAttachment(atts[i])
  {
    if atts == [] then []
    else [EncodeAttachment(atts[0])] + EncodeAttachments(atts[1..])
  }

  function EncodeAttachment(a: Attachment): Json
    decreases a
  {
    JObj([
      ("subspace_id", EncodeU64(a.subspaceId)),
      ("section_id", EncodeU32(a.sectionId)),
      ("post_id", EncodeU64(a.postId)),
      ("id", EncodeU32(a.id)),
      ("content", EncodePostAttachment(a.content))
    ])
  }

  function EncodeOptTally(t: Option<PollTallyResults>): Json {
    match t
    case None => JNull
    case Some(tally) => EncodeTally(tally)
  }

  function EncodeTally(t: PollTallyResults): Json {
    JObj([("results", JArr(EncodeAnswerResults(t.results)))])
  }

  function EncodeAnswerResults(rs: seq<AnswerResult>): (items: seq<Json>)
    ensures |items| == |rs|
    ensures forall i :: 0 <= i < |rs| ==> items[i] == EncodeAnswerResult(rs[i])
  {
    if rs == [] then [] else [EncodeAnswerResult(rs[0])] + EncodeAnswerResults(rs[1..])
  }

  function EncodeAnswerResult(r: AnswerResult): Json {
    JObj([("answer_index", EncodeU32(r.answerIndex)), ("votes", EncodeU64(r.votes))])
  }

  // ---------------------------------------------------------------------
  // Scanner slots

  /** One buffer per recognised key. The tally slot is doubly optional:
      `Some(None)` records an explicit null. */
  datatype Slots = Slots(
    typeUri: Option<string>,
    mimeType: Option<string>,
    uri: Option<string>,
    question: Option<string>,
    providedAnswers: Option<seq<ProvidedAnswer>>,
    endDate: Option<string>,
    allowsMultipleAnswers: Option<bool>,
    allowsAnswerEdits: Option<bool>,
    finalTallyResults: Option<Option<PollTallyResults>>)

  const EmptySlots: Slots := Slots(None, None, None, None, None, None, None, None, None)

  predicate Filled(s: Slots, f: Field) {
    match f
    case TypeUriField => s.typeUri.Some?
    case MimeType => s.mimeType.Some?
    case Uri => s.uri.Some?
    case Question => s.question.Some?
    case ProvidedAnswers => s.providedAnswers.Some?
    case EndDate => s.endDate.Some?
    case AllowsMultipleAnswers => s.allowsMultipleAnswers.Some?
    case AllowsAnswerEdits => s.allowsAnswerEdits.Some?
    case FinalTallyResults => s.finalTallyResults.Some?
  }

  /** t keeps every slot s had filled, with the same value. */
  predicate Extends(s: Slots, t: Slots) {
    && (s.typeUri.Some? ==> t.typeUri == s.typeUri)
    && (s.mimeType.Some? ==> t.mimeType == s.mimeType)
    && (s.uri.Some? ==> t.uri == s.uri)
    && (s.question.Some? ==> t.question == s.question)
    && (s.providedAnswers.Some? ==> t.providedAnswers == s.providedAnswers)
    && (s.endDate.Some? ==> t.endDate == s.endDate)
    && (s.allowsMultipleAnswers.Some? ==> t.allowsMultipleAnswers == s.allowsMultipleAnswers)
    && (s.allowsAnswerEdits.Some? ==> t.allowsAnswerEdits == s.allowsAnswerEdits)
    && (s.finalTallyResults.Some? ==> t.finalTallyResults == s.finalTallyResults)
  }

  // ---------------------------------------------------------------------
  // Decoder

  /** Only a JSON object can hold an attachment. */
  function DecodePostAttachment(j: Json): (r: Result<PostAttachment, DecodeError>)
    decreases j, 0
    ensures !j.JObj? ==> r == Err(WrongType)
  {
    match j
    case JObj(fields) =>
      (match ScanFields(fields, EmptySlots)
       case Err(e) => Err(e)
       case Ok(slots) => Resolve(slots))
    case _ => Err(WrongType)
  }

  /** The single pass over the entries, stopping at the first error. */
  function ScanFields(fields: Fields, s: Slots): (r: Result<Slots, DecodeError>)
    decreases fields, 0
    ensures r.Ok? ==> Extends(s, r.value)
  {
    if fields == [] then Ok(s)
    else
      match ScanEntry(fields[0], s)
      case Err(e) => Err(e)
      case Ok(next) => ScanFields(fields[1..], next)
  }

  /** One entry: an unknown key and a second occurrence of a known key are
      rejected before the value is looked at. */
  function ScanEntry(entry: (string, Json), s: Slots): (r: Result<Slots, DecodeError>)
    decreases entry, 0
    ensures ParseField(entry.0).None? ==> r == Err(UnknownField(entry.0))
    ensures ParseField(entry.0).Some? && Filled(s, ParseField(entry.0).value) ==>
              r == Err(DuplicateField(entry.0))
    ensures r.Ok? ==> ParseField(entry.0).Some? && !Filled(s, ParseField(entry.0).value)
    ensures r.Ok? ==> Extends(s, r.value)
    ensures r.Ok? ==> r.value == Fill(ParseField(entry.0).value, s, r.value)
  {
    match ParseField(entry.0)
    case None => Err(UnknownField(entry.0))
    case Some(f) =>
      if Filled(s, f) then Err(DuplicateField(FieldName(f)))
      else
        var r := StoreField(f, entry.1, s);
        if r.Err? then r
        else
          FillFilled(f, s, r.value);
          r
  }

  /** Decodes a value into the slot of its field. */
  function StoreField(f: Field, v: Json, s: Slots): (r: Result<Slots, DecodeError>)
    decreases v, 1
    ensures r.Ok? ==> r.value == Fill(f, s, r.value)
    ensures r.Ok? ==> Filled(r.value, f)
  {
    match f
    case TypeUriField =>
      (match DecodeString(v) case Err(e) => Err(e) case Ok(x) => Ok(s.(typeUri := Some(x))))
    case MimeType =>
      (match DecodeString(v) case Err(e) => Err(e) case Ok(x) => Ok(s.(mimeType := Some(x))))
    case Uri =>
      (match DecodeString(v) case Err(e) => Err(e) case Ok(x) => Ok(s.(uri := Some(x))))
    case Question =>
      (match DecodeString(v) case Err(e) => Err(e) case Ok(x) => Ok(s.(question := Some(x))))
    case ProvidedAnswers =>
      (match DecodeProvidedAnswers(v) case Err(e) => Err(e) case Ok(x) => Ok(s.(providedAnswers := Some(x))))
    case EndDate =>
      (match DecodeString(v) case Err(e) => Err(e) case Ok(x) => Ok(s.(endDate := Some(x))))
    case AllowsMultipleAnswers =>
      (match DecodeBool(v) case Err(e) => Err(e) case Ok(x) => Ok(s.(allowsMultipleAnswers := Some(x))))
    case AllowsAnswerEdits =>
      (match DecodeBool(v) case Err(e) => Err(e) case Ok(x) => Ok(s.(allowsAnswerEdits := Some(x))))
    case FinalTallyResults =>
      (match DecodeOptTally(v) case Err(e) => Err(e) case Ok(x) => Ok(s.(finalTallyResults := Some(x))))
  }

  /** s with the slot of f taken from t and every other slot left alone. */
  function Fill(f: Field, s: Slots, t: Slots): Slots {
    match f
    case TypeUriField => s.(typeUri := t.typeUri)
    case MimeType => s.(mimeType := t.mimeType)
    case Uri => s.(uri := t.uri)
    case Question => s.(question := t.question)
    case ProvidedAnswers => s.(providedAnswers := t.providedAnswers)
    case EndDate => s.(endDate := t.endDate)
    case AllowsMultipleAnswers => s.(allowsMultipleAnswers := t.allowsMultipleAnswers)
    case AllowsAnswerEdits => s.(allowsAnswerEdits := t.allowsAnswerEdits)
    case FinalTallyResults => s.(finalTallyResults := t.finalTallyResults)
  }

  lemma FieldNameInjective(f: Field, g: Field)
    ensures FieldName(f) == FieldName(g) ==> f == g
  {
    assert ParseField(FieldName(f)) == Some(f);
  }

  /** Filling the slot of f from t keeps every other slot of s. */
  lemma FillFilled(f: Field, s: Slots, t: Slots)
    requires Filled(t, f) && !Filled(s, f)
    ensures Extends(s, Fill(f, s, t))
    ensures forall g :: Filled(Fill(f, s, t), g) <==> Filled(s, g) || g == f
  {
  }

  /** The slots a variant is built from: the discriminator and that
      variant's own fields, with the tally's absent and null states merged.
      Everything else the scan buffered is discarded. */
  function Project(s: Slots, k: Kind): Slots {
    match k
    case MediaKind =>
      EmptySlots.(typeUri := s.typeUri, mimeType := s.mimeType, uri := s.uri)
    case PollKind =>
      EmptySlots.(
        typeUri := s.typeUri,
        question := s.question,
        providedAnswers := s.providedAnswers,
        endDate := s.endDate,
        allowsMultipleAnswers := s.allowsMultipleAnswers,
        allowsAnswerEdits := s.allowsAnswerEdits,
        finalTallyResults := Some(Flatten(s.finalTallyResults)))
  }

  /** The slots an encoded attachment fills, reduced by Project. */
  function SlotsOf(x: PostAttachment): Slots {
    match x
    case Media(mimeType, uri) =>
      EmptySlots.(typeUri := Some(MediaTypeUri), mimeType := Some(mimeType), uri := Some(uri))
    case Poll(question, answers, endDate, multiple, edits, tally) =>
      EmptySlots.(
        typeUri := Some(PollTypeUri),
        question := Some(question),
        providedAnswers := Some(answers),
        endDate := Some(endDate),
        allowsMultipleAnswers := Some(multiple),
        allowsAnswerEdits := Some(edits),
        finalTallyResults := Some(tally))
  }

  /** Picks the variant from the discriminator, then demands that variant's
      mandatory slots in order. An unknown type URI is reported exactly like
      a missing one. */
  function Resolve(s: Slots): (r: Result<PostAttachment, DecodeError>)
    ensures s.typeUri.None? || KindOfUri(s.typeUri.value).None? ==> r == Err(MissingField("@type"))
    ensures r.Ok? ==> s.typeUri == Some(TypeUri(KindOf(r.value)))
    ensures r.Ok? ==> forall f :: f in RequiredFields(KindOf(r.value)) ==> Filled(s, f)
    ensures r.Ok? ==> Project(s, KindOf(r.value)) == SlotsOf(r.value)
    ensures r.Err? ==> r.error.MissingField?
  {
    match s.typeUri
    case None => Err(MissingField(FieldName(TypeUriField)))
    case Some(uri) =>
      match KindOfUri(uri)
      case Some(MediaKind) =>
        if s.mimeType.None? then Err(MissingField(FieldName(MimeType)))
        else if s.uri.None? then Err(MissingField(FieldName(Uri)))
        else Ok(Media(s.mimeType.value, s.uri.value))
      case Some(PollKind) =>
        if s.question.None? then Err(MissingField(FieldName(Question)))
        else if s.providedAnswers.None? then Err(MissingField(FieldName(ProvidedAnswers)))
        else if s.endDate.None? then Err(MissingField(FieldName(EndDate)))
        else if s.allowsMultipleAnswers.None? then Err(MissingField(FieldName(AllowsMultipleAnswers)))
        else if s.allowsAnswerEdits.None? then Err(MissingField(FieldName(AllowsAnswerEdits)))
        else
          Ok(Poll(
            s.question.value,
            s.providedAnswers.value,
            s.endDate.value,
            s.allowsMultipleAnswers.value,
            s.allowsAnswerEdits.value,
            Flatten(s.finalTallyResults)))
      case None => Err(MissingField(FieldName(TypeUriField)))
  }

  // ---------------------------------------------------------------------
  // Derived records. Each is an object; unknown keys are skipped, a repeated
  // known key is rejected during the scan, and missing fields are reported
  // in declaration order. A missing optional field reads as None.

  function DecodeProvidedAnswers(j: Json): (r: Result<seq<ProvidedAnswer>, DecodeError>)
    decreases j, 0
    ensures r.Ok? ==> j.JArr? && |r.value| == |j.items|
  {
    match j
    case JArr(items) => DecodeProvidedAnswerItems(items)
    case _ => Err(WrongType)
  }

  function DecodeProvidedAnswerItems(items: seq<Json>): (r: Result<seq<ProvidedAnswer>, DecodeError>)
    decreases items, 0
    ensures r.Ok? ==> |r.value| == |items|
    ensures r.Ok? ==> forall i :: 0 <= i < |items| ==> DecodeProvidedAnswer(items[i]) == Ok(r.value[i])
  {
    if items == [] then Ok([])
    else
      match DecodeProvidedAnswer(items[0])
      case Err(e) => Err(e)
      case Ok(a) =>
        match DecodeProvidedAnswerItems(items[1..])
        case Err(e) => Err(e)
        case Ok(rest) => Ok([a] + rest)
  }

  datatype AnswerSlots = AnswerSlots(text: Option<Option<string>>, attachments: Option<seq<Attachment>>)

  function DecodeProvidedAnswer(j: Json): (r: Result<ProvidedAnswer, DecodeError>)
    decreases j, 0
  {
    match j
    case JObj(fields) =>
      (match ScanAnswerFields(fields, AnswerSlots(None, None))
       case Err(e) => Err(e)
       case Ok(s) =>
         if s.attachments.None? then Err(MissingField("attachments"))
         else Ok(ProvidedAnswer(Flatten(s.text), s.attachments.value)))
    case _ => Err(WrongType)
  }

  function ScanAnswerFields(fields: Fields, s: AnswerSlots): (r: Result<AnswerSlots, DecodeError>)
    decreases fields, 0
  {
    if fields == [] then Ok(s)
    else
      match ScanAnswerEntry(fields[0], s)
      case Err(e) => Err(e)
      case Ok(next) => ScanAnswerFields(fields[1..], next)
  }

  function ScanAnswerEntry(entry: (string, Json), s: AnswerSlots): (r: Result<AnswerSlots, DecodeError>)
    decreases entry, 0
  {
    var (key, v) := entry;
    if key == "text" then
      if s.text.Some? then Err(DuplicateField(key))
      else
        (match DecodeOptString(v) case Err(e) => Err(e) case Ok(x) => Ok(s.(text := Some(x))))
    else if key == "attachments" then
      if s.attachments.Some? then Err(DuplicateField(key))
      else
        (match DecodeAttachments(v) case Err(e) => Err(e) case Ok(x) => Ok(s.(attachments := Some(x))))
    else Ok(s)
  }

  function DecodeAttachments(j: Json): (r: Result<seq<Attachment>, DecodeError>)
    decreases j, 1
    ensures r.Ok? ==> j.JArr? && |r.value| == |j.items|
  {
    match j
    case JArr(items) => DecodeAttachmentItems(items)
    case _ => Err(WrongType)
  }

  function DecodeAttachmentItems(items: seq<Json>): (r: Result<seq<Attachment>, DecodeError>)
    decreases items, 0
    ensures r.Ok? ==> |r.value| == |items|
    ensures r.Ok? ==> forall i :: 0 <= i < |items| ==> DecodeAttachment(items[i]) == Ok(r.value[i])
  {
    if items == [] then Ok([])
    else
      match DecodeAttachment(items[0])
      case Err(e) => Err(e)
      case Ok(a) =>
        match DecodeAttachmentItems(items[1..])
        case Err(e) => Err(e)
        case Ok(rest) => Ok([a] + rest)
  }

  datatype AttachmentSlots = AttachmentSlots(
    subspaceId: Option<u64>,
    sectionId: Option<u32>,
    postId: Option<u64>,
    id: Option<u32>,
    content: Option<PostAttachment>)

  function DecodeAttachment(j: Json): (r: Result<Attachment, DecodeError>)
    decreases j, 0
  {
    match j
    case JObj(fields) =>
      (match ScanAttachmentFields(fields, AttachmentSlots(None, None, None, None, None))
       case Err(e) => Err(e)
       case Ok(s) =>
         if s.subspaceId.None? then Err(MissingField("subspace_id"))
         else if s.sectionId.None? then Err(MissingField("section_id"))
         else if s.postId.None? then Err(MissingField("post_id"))
         else if s.id.None? then Err(MissingField("id"))
         else if s.content.None? then Err(MissingField("content"))
         else Ok(Attachment(s.subspaceId.value, s.sectionId.value, s.postId.value, s.id.value, s.content.value)))
    case _ => Err(WrongType)
  }

  function ScanAttachmentFields(fields: Fields, s: AttachmentSlots): (r: Result<AttachmentSlots, DecodeError>)
    decreases fields, 0
  {
    if fields == [] then Ok(s)
    else
      match ScanAttachmentEntry(fields[0], s)
      case Err(e) => Err(e)
      case Ok(next) => ScanAttachmentFields(fields[1..], next)
  }

  function ScanAttachmentEntry(entry: (string, Json), s: AttachmentSlots): (r: Result<AttachmentSlots, DecodeError>)
    decreases entry, 0
  {
    var (key, v) := entry;
    if key == "subspace_id" then
      if s.subspaceId.Some? then Err(DuplicateField(key))
      else (match DecodeU64(v) case Err(e) => Err(e) case Ok(x) => Ok(s.(subspaceId := Some(x))))
    else if key == "section_id" then
      if s.sectionId.Some? then Err(DuplicateField(key))
      else (match DecodeU32(v) case Err(e) => Err(e) case Ok(x) => Ok(s.(sectionId := Some(x))))
    else if key == "post_id" then
      if s.postId.Some? then Err(DuplicateField(key))
      else (match DecodeU64(v) case Err(e) => Err(e) case Ok(x) => Ok(s.(postId := Some(x))))
    else if key == "id" then
      if s.id.Some? then Err(DuplicateField(key))
      else (match DecodeU32(v) case Err(e) => Err(e) case Ok(x) => Ok(s.(id := Some(x))))
    else if key == "content" then
      if s.content.Some? then Err(DuplicateField(key))
      else (match DecodePostAttachment(v) case Err(e) => Err(e) case Ok(x) => Ok(s.(content := Some(x))))
    else Ok(s)
  }

  /** `null` is no tally; anything else must be a tally object. */
  function DecodeOptTally(j: Json): (r: Result<Option<PollTallyResults>, DecodeError>)
    ensures j.JNull? <==> r == Ok(None)
  {
    match j
    case JNull => Ok(None)
    case _ =>
      match DecodeTally(j)
      case Err(e) => Err(e)
      case Ok(t) => Ok(Some(t))
  }

  function DecodeTally(j: Json): (r: Result<PollTallyResults, DecodeError>) {
    match j
    case JObj(fields) =>
      (match ScanTallyFields(fields, None)
       case Err(e) => Err(e)
       case Ok(None) => Err(MissingField("results"))
       case Ok(Some(results)) => Ok(PollTallyResults(results)))
    case _ => Err(WrongType)
  }

  function ScanTallyFields(fields: Fields, results: Option<seq<AnswerResult>>)
    : (r: Result<Option<seq<AnswerResult>>, DecodeError>)
  {
    if fields == [] then Ok(results)
    else if fields[0].0 != "results" then ScanTallyFields(fields[1..], results)
    else if results.Some? then Err(DuplicateField("results"))
    else
      match DecodeAnswerResultList(fields[0].1)
      case Err(e) => Err(e)
      case Ok(rs) => ScanTallyFields(fields[1..], Some(rs))
  }

  function DecodeAnswerResultList(j: Json): (r: Result<seq<AnswerResult>, DecodeError>)
    ensures r.Ok? ==> j.JArr? && |r.value| == |j.items|
  {
    match j
    case JArr(items) => DecodeAnswerResultItems(items)
    case _ => Err(WrongType)
  }

  function DecodeAnswerResultItems(items: seq<Json>): (r: Result<seq<AnswerResult>, DecodeError>)
    ensures r.Ok? ==> |r.value| == |items|
    ensures r.Ok? ==> forall i :: 0 <= i < |items| ==> DecodeAnswerResult(items[i]) == Ok(r.value[i])
  {
    if items == [] then Ok([])
    else
      match DecodeAnswerResult(items[0])
      case Err(e) => Err(e)
      case Ok(a) =>
        match DecodeAnswerResultItems(items[1..])
        case Err(e) => Err(e)
        case Ok(rest) => Ok([a] + rest)
  }

  function DecodeAnswerResult(j: Json): (r: Result<AnswerResult, DecodeError>) {
    match j
    case JObj(fields) =>
      (match ScanAnswerResultFields(fields, None, None)
       case Err(e) => Err(e)
       case Ok((index, votes)) =>
         if index.None? then Err(MissingField("answer_index"))
         else if votes.None? then Err(MissingField("votes"))
         else Ok(AnswerResult(index.value, votes.value)))
    case _ => Err(WrongType)
  }

  function ScanAnswerResultFields(fields: Fields, index: Option<u32>, votes: Option<u64>)
    : (r: Result<(Option<u32>, Option<u64>), DecodeError>)
  {
    if fields == [] then Ok((index, votes))
    else
      var (key, v) := fields[0];
      if key == "answer_index" then
        if index.Some? then Err(DuplicateField(key))
        else
          match DecodeU32(v)
          case Err(e) => Err(e)
          case Ok(x) => ScanAnswerResultFields(fields[1..], Some(x), votes)
      else if key == "votes" then
        if votes.Some? then Err(DuplicateField(key))
        else
          match DecodeU64(v)
          case Err(e) => Err(e)
          case Ok(x) => ScanAnswerResultFields(fields[1..], index, Some(x))
      else ScanAnswerResultFields(fields[1..], index, votes)
  }
}
