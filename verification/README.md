# PostAttachment JSON codec — a Dafny model

This project models the polymorphic JSON codec of a post attachment in the
Desmos CosmWasm bindings. It also models the attachment records that the codec
recurses through.

A post attachment is either a `Media` (mime type and URI) or a `Poll`. A poll
has a question, provided answers, an end date, two flags and an optional
tally. On the wire an attachment is one flat JSON object. Its `@type` key
holds the variant's type URI (`/desmos.posts.v1.Media` or
`/desmos.posts.v1.Poll`), and the variant's own fields sit beside that key.

Poll answers carry attachments, and those attachments carry post attachments
again. `PostAttachment`, `ProvidedAnswer` and `Attachment` are therefore
mutually recursive, and so are their encoders and decoders.

The model works on a JSON tree, not on JSON text. An object is a sequence of
(key, value) pairs, so that key order and repeated keys can be expressed.

- **Encoder**: writes `@type` first, then the variant's fields in a fixed
  order. A poll always writes `final_tally_results`, as `null` when there is
  no tally.
- **Decoder, scan phase**: one pass over the entries fills nine optional
  slots.
  - An unknown key fails with `UnknownField`.
  - A second occurrence of any known key fails with `DuplicateField` before
    its value is read. This holds even for a key the final variant does not
    use.
  - A value of the wrong JSON kind fails with `WrongType`.
- **Decoder, resolve phase**:
  - It reads `@type`. An absent or unrecognised URI gives
    `MissingField("@type")`.
  - It then demands the mandatory fields of that variant only, in a fixed
    order.
  - The tally slot is an option of an option. An absent tally and an explicit
    `null` both flatten to no tally.
- **Derived records** (`Attachment`, `ProvidedAnswer`, `PollTallyResults`,
  `AnswerResult`) map field by field:
  - unknown keys are skipped;
  - repeated keys are rejected;
  - missing fields are reported in declaration order;
  - a missing or `null` answer `text` is `None`.
- **Number encodings**: `Uint64` values are written as decimal strings and
  `u32` values as JSON numbers. Both are bounded by their width on decoding.

Modules, one per file:

| module | file |
|---|---|
| `Results` | `results.dfy` |
| `Json` | `json.dfy` |
| `Decimal` (decimal digit strings) | `decimal.dfy` |
| `Models` (the datatypes) | `models.dfy` |
| `WireEnums` (reply-setting and reference-type names) | `wire_enums.dfy` |
| `Primitives` (codecs of strings, booleans, `u32`, `u64`) | `primitives.dfy` |
| `Codec` (encoder, scanner, resolver, derived-record decoders) | `codec.dfy` |
| `Envelope` (scan-phase properties) | `envelope.dfy` |
| `RoundTrip` | `roundtrip.dfy` |
| `Resolution` (resolve-phase properties) | `resolution.dfy` |
| `Encoding` (shape of the encoder's output) | `encoding.dfy` |
| `Records` (scan and missing-field properties of the derived records) | `records.dfy` |
| `Stability` (what re-encoding a decoded object gives back) | `stability.dfy` |
| `WireExamples` (the documents of the source's unit tests) | `examples_wire.dfy` |

## Model

| member | source | states |
|---|---|---|
| Codec.KindOfUri | packages/bindings/src/posts/custom_serialization.rs:7-8 | only the two exact type-URI constants name a variant, and each names back its own URI |
| Codec.ParseField | packages/bindings/src/posts/custom_serialization.rs:45-58 | a key is recognised exactly when it is one of the nine wire names, and the field recognised has that name |
| Codec.FieldNameInjective | packages/bindings/src/posts/custom_serialization.rs:45-58 | different envelope fields have different wire names |
| Codec.ScanEntry | packages/bindings/src/posts/custom_serialization.rs:83-139 | one entry: an unknown key is `UnknownField`; a key whose slot is already filled is `DuplicateField` of that key; on success the slot was empty and only that slot is filled |
| Codec.StoreField | packages/bindings/src/posts/custom_serialization.rs:85-138 | storing a decoded value fills exactly the field's slot |
| Codec.ScanFields | packages/bindings/src/posts/custom_serialization.rs:83-140 | the scan only ever fills slots, and never empties or changes one |
| Codec.Resolve | packages/bindings/src/posts/custom_serialization.rs:142-169 | an absent or unrecognised `@type` is `MissingField("@type")`; a success has the URI of its variant and every mandatory slot of it filled, and is built from exactly that variant's slots; every failure is a `MissingField` |
| Codec.DecodePostAttachment | packages/bindings/src/posts/custom_serialization.rs:173-190 | anything but a JSON object is rejected as the wrong type |
| Codec.DecodeOptTally | packages/bindings/src/posts/custom_serialization.rs:81 | `null` and only `null` decodes to no tally |
| Envelope.ScanEntryFills | packages/bindings/src/posts/custom_serialization.rs:83-139 | after one accepted entry, the filled slots are the earlier ones plus the slot named by the key |
| Envelope.ScanFilled | packages/bindings/src/posts/custom_serialization.rs:83-140 | after a successful scan, a slot is filled exactly when its wire name occurs among the keys |
| Envelope.ScanKeysFreshDistinct | packages/bindings/src/posts/custom_serialization.rs:83-139 | a successful scan saw only known keys, none twice and none already filled |
| Envelope.DecodedKeysDistinct | packages/bindings/src/posts/custom_serialization.rs:83-139 | every object that decodes has known, pairwise distinct keys |
| Envelope.DuplicateKeyRejected | packages/bindings/src/posts/custom_serialization.rs:83-139 | a known key repeated after a clean prefix fails with `DuplicateField` naming that key, whatever follows and whatever the variant |
| Envelope.DuplicateNullTallyRejected | packages/bindings/src/posts/custom_serialization.rs:133-137 | a second `final_tally_results` is a duplicate even when the first one was `null` |
| Envelope.UnknownKeyRejected | packages/bindings/src/posts/custom_serialization.rs:45-58 | an unrecognised key after a clean prefix fails with `UnknownField` naming it |
| Resolution.FirstAbsent | packages/bindings/src/posts/custom_serialization.rs:145-156 | the first field of a required list whose name is absent from the keys; none exactly when all are present |
| Resolution.MissingTypeReported | packages/bindings/src/posts/custom_serialization.rs:142-169 | a scannable object with no `@type` entry carrying a known URI fails with `MissingField("@type")` |
| Resolution.TypeUriOfScan | packages/bindings/src/posts/custom_serialization.rs:85-90 | the `@type` entry of a successful scan is the URI the resolver reads |
| Resolution.TypeUriProvenance | packages/bindings/src/posts/custom_serialization.rs:85-90 | a URI the resolver reads came from a `@type` string entry of the object |
| Resolution.MissingRequiredFieldReported | packages/bindings/src/posts/custom_serialization.rs:144-165 | with a known `@type`, decoding names the first mandatory field of that variant that is absent; with none absent it succeeds with that variant |
| Resolution.ResolveMediaFirstAbsent | packages/bindings/src/posts/custom_serialization.rs:144-147 | a media resolves by naming `mime_type`, then `uri`, as the first missing field |
| Resolution.ResolvePollFirstAbsent | packages/bindings/src/posts/custom_serialization.rs:148-166 | the poll's missing-field error agrees with the first absent mandatory key |
| Resolution.ResolveNullTally | packages/bindings/src/posts/custom_serialization.rs:157-158 | a `null` tally slot and an empty tally slot resolve alike |
| Resolution.TallyNullSameAsAbsent | packages/bindings/src/posts/custom_serialization.rs:157-158 | inserting `"final_tally_results": null` anywhere in an object without a tally key does not change the decoding result, success or error |
| Resolution.AbsentTallyIsNone | packages/bindings/src/posts/custom_serialization.rs:157-158 | a poll decoded without a tally key has no tally |
| Resolution.ScanIgnoresTally | packages/bindings/src/posts/custom_serialization.rs:83-139 | entries other than the tally neither read nor change the tally slot |
| Resolution.ResolveMediaProject | packages/bindings/src/posts/custom_serialization.rs:144-147 | a media resolves from its discriminator and its own two slots only; every poll slot is discarded |
| Resolution.ScanKeepsMediaSlots | packages/bindings/src/posts/custom_serialization.rs:83-139 | scanning entries under other keys leaves the discriminator and media slots as they were |
| Resolution.ScanMediaSlotsCongruent | packages/bindings/src/posts/custom_serialization.rs:83-139 | a media slot is decoded from its entry alone, so scans from slots that agree on the media part end agreeing on it |
| Resolution.MediaIgnoresPollKeys | packages/bindings/src/posts/custom_serialization.rs:144-147 | inserting entries under non-media keys anywhere into an object that decodes to a media, as long as the whole object still scans, decodes to the same media |
| RoundTrip.ScanEncoded | packages/bindings/src/posts/custom_serialization.rs:83-140 | scanning an encoded attachment fills exactly the slots of that attachment |
| RoundTrip.ResolveSlotsOf | packages/bindings/src/posts/custom_serialization.rs:142-169 | the slots of an attachment resolve to that attachment |
| RoundTrip.PostAttachmentRoundTrip | packages/bindings/src/posts/custom_serialization.rs:10-169 | decoding the encoding of any attachment, polls with nested attachments included, gives it back |
| RoundTrip.ProvidedAnswersRoundTrip | packages/bindings/src/posts/models.rs:162-170 | a list of provided answers decodes back from its encoding, in order |
| RoundTrip.ProvidedAnswerRoundTrip | packages/bindings/src/posts/models.rs:162-170 | one provided answer, text present or absent, decodes back from its encoding |
| RoundTrip.AttachmentsRoundTrip | packages/bindings/src/posts/models.rs:126-142 | a list of attachments decodes back from its encoding, in order |
| RoundTrip.AttachmentRoundTrip | packages/bindings/src/posts/models.rs:126-142 | one attachment decodes back from its encoding, its content through the attachment codec |
| RoundTrip.TallyOptRoundTrip | packages/bindings/src/posts/models.rs:154-160 | an optional tally decodes back from its encoding |
| RoundTrip.TallyRoundTrip | packages/bindings/src/posts/models.rs:154-160 | a tally decodes back from its encoding |
| RoundTrip.AnswerResultsRoundTrip | packages/bindings/src/posts/models.rs:144-152 | a list of answer results decodes back from its encoding, in order |
| RoundTrip.AnswerResultRoundTrip | packages/bindings/src/posts/models.rs:144-152 | one answer result decodes back from its encoding |
| RoundTrip.DecodeIsStable | packages/bindings/src/posts/custom_serialization.rs:10-169 | re-encoding and re-decoding a decoded attachment gives the same result |
| Stability.ReencodingDropsPollKeys | packages/bindings/src/posts/custom_serialization.rs:144-147 | a media object carrying a poll question decodes to the plain media, whose encoding has three keys, not four |
| Stability.ReencodingAddsNullTally | packages/bindings/src/posts/custom_serialization.rs:148-166 | a tally-less poll written without its tally key decodes to that poll, whose encoding adds the tally key as null (line 38) |
| Encoding.MediaKeyOrder | packages/bindings/src/posts/custom_serialization.rs:16-21 | a media is written with exactly the keys `@type`, `mime_type`, `uri`, in that order, and the media URI |
| Encoding.PollKeyOrder | packages/bindings/src/posts/custom_serialization.rs:31-38 | a poll is written with exactly seven keys in source order, starting with the poll URI |
| Encoding.EncodeFollowsRequiredOrder | packages/bindings/src/posts/custom_serialization.rs:16-38 | after `@type`, the encoder writes exactly the mandatory fields the decoder demands, in the order it demands them |
| Encoding.EncodeTypeUriFirst | packages/bindings/src/posts/custom_serialization.rs:18-32 | the first key is `@type`, and its URI resolves back to the encoded variant |
| Encoding.TallyKeyAlwaysPresent | packages/bindings/src/posts/custom_serialization.rs:38 | a poll always writes the tally key last, as `null` exactly when there is no tally |
| Encoding.EncodedFieldsWellFormed | packages/bindings/src/posts/custom_serialization.rs:16-38 | every key written is a known one and none is written twice |
| Encoding.AttachmentEncoding | packages/bindings/src/posts/models.rs:129-142 | an attachment writes its five keys in declaration order: `Uint64` ids as decimal strings, `u32` ids as numbers, content through the attachment codec |
| Encoding.ProvidedAnswerEncoding | packages/bindings/src/posts/models.rs:165-170 | a provided answer writes `text` (`null` when absent), then `attachments` holding each attachment's encoding in order |
| Encoding.TallyEncoding | packages/bindings/src/posts/models.rs:147-160 | a tally is `{"results": [...]}`, each result an `answer_index` number then a `votes` decimal string, in order |
| Records.AttachmentSkipsUnknown | packages/bindings/src/posts/models.rs:126-142 | an attachment entry under an unknown key is skipped whatever its value |
| Records.ScanAttachmentHas | packages/bindings/src/posts/models.rs:126-142 | after a clean attachment scan, a field has been read exactly when it was before or its key occurs in the object |
| Records.AttachmentDuplicateRejected | packages/bindings/src/posts/models.rs:126-142 | an attachment key met again after a clean prefix fails with `DuplicateField` naming it, whatever follows |
| Records.AttachmentMissingFieldReported | packages/bindings/src/posts/models.rs:129-142 | after a clean scan the first absent attachment key in declaration order (`subspace_id`, `section_id`, `post_id`, `id`, `content`) is reported, and with none absent the attachment decodes |
| Records.AnswerSkipsUnknown | packages/bindings/src/posts/models.rs:162-170 | a provided-answer entry under an unknown key is skipped |
| Records.ScanAnswerHas | packages/bindings/src/posts/models.rs:162-170 | after a clean provided-answer scan, a field has been read exactly when its key occurs |
| Records.AnswerDuplicateRejected | packages/bindings/src/posts/models.rs:162-170 | a repeated `text` or `attachments` fails with `DuplicateField` naming it |
| Records.AnswerMissingFieldReported | packages/bindings/src/posts/models.rs:165-170 | `attachments` is mandatory and decides success after a clean scan; an absent `text` reads as none |
| Records.TallySkipsUnknown | packages/bindings/src/posts/models.rs:154-160 | a tally entry under any key but `results` is skipped |
| Records.ScanTallyHas | packages/bindings/src/posts/models.rs:154-160 | after a clean tally scan, the results have been read exactly when a `results` key occurs |
| Records.TallyDuplicateRejected | packages/bindings/src/posts/models.rs:154-160 | a second `results` fails with `DuplicateField("results")` |
| Records.TallyMissingResultsReported | packages/bindings/src/posts/models.rs:157-160 | without a `results` key a tally fails with `MissingField("results")`, whatever else it holds; with it, a clean scan gives a tally |
| Records.AnswerResultSkipsUnknown | packages/bindings/src/posts/models.rs:144-152 | an answer-result entry under an unknown key is skipped |
| Records.ScanAnswerResultHas | packages/bindings/src/posts/models.rs:144-152 | after a clean answer-result scan, a field has been read exactly when its key occurs |
| Records.AnswerResultDuplicateRejected | packages/bindings/src/posts/models.rs:144-152 | a repeated `answer_index` or `votes` fails with `DuplicateField` naming it |
| Records.AnswerResultMissingFieldReported | packages/bindings/src/posts/models.rs:147-152 | after a clean scan `answer_index` is reported missing first, then `votes`, and with both present the result decodes |
| Decimal.ToDecimal | packages/bindings/src/posts/models.rs:129-152 | the decimal string of a `Uint64` is non-empty, all digits, without a leading zero, and denotes the number |
| Decimal.ParseToDecimal | packages/bindings/src/posts/models.rs:129-152 | parsing the decimal string of a number gives the number back |
| Decimal.ToDecimalOfCanonical | packages/bindings/src/posts/models.rs:129-152 | a canonical digit string is the decimal string of its value |
| Primitives.DecodeU64 | packages/bindings/src/posts/models.rs:129-152 | a `Uint64` is read from a digit string whose value is below 2^64, and any other JSON kind is the wrong type |
| Primitives.U64RoundTrip | packages/bindings/src/posts/models.rs:129-152 | a `Uint64` reads back from its decimal string |
| Primitives.DecodeU32 | packages/bindings/src/posts/models.rs:129-152 | a `u32` is read from a JSON number below 2^32 with that value; a number from 2^32 up to 2^64 is an invalid value, a larger one (a float to the JSON reader) and any non-number the wrong type |
| Primitives.U32RoundTrip | packages/bindings/src/posts/models.rs:129-152 | a `u32` reads back from its number |
| Primitives.DecodeString | packages/bindings/src/posts/models.rs:192-216 | a string field reads exactly from a JSON string, with that text; anything else is the wrong type |
| Primitives.DecodeBool | packages/bindings/src/posts/models.rs:209-212 | a flag reads exactly from a JSON boolean, with that value; anything else is the wrong type |
| Primitives.DecodeOptString | packages/bindings/src/posts/models.rs:167 | an optional text reads `null` or a string, and re-encodes to the same JSON |
| Primitives.OptStringRoundTrip | packages/bindings/src/posts/models.rs:167 | an optional text reads back from its encoding |
| Results.Flatten | packages/bindings/src/posts/custom_serialization.rs:157-158 | the flattened option is present exactly when both layers are, and holds the inner value |
| WireEnums.ParseReplySetting | packages/bindings/src/posts/models.rs:108-124 | exactly the five `REPLY_SETTING_*` names parse, and each back to its own name |
| WireEnums.ReplySettingRoundTrip | packages/bindings/src/posts/models.rs:108-124 | every reply setting parses back from its wire name |
| WireEnums.DecodeReplySetting | packages/bindings/src/posts/models.rs:105-124 | a JSON reply setting is a string among the five names, or the tagged object holding one of them as its only key with a null value; an unknown name is an unknown variant, any other JSON kind the wrong type; a string re-encodes to itself |
| WireEnums.TaggedReplySettingRoundTrip | packages/bindings/src/posts/models.rs:105-124 | every reply setting also reads back from its tagged form `{name: null}` |
| WireEnums.ReplySettingJsonRoundTrip | packages/bindings/src/posts/models.rs:108-124 | a reply setting reads back from its JSON encoding |
| WireEnums.ParsePostReferenceType | packages/bindings/src/posts/models.rs:91-103 | exactly the four snake-case reference-type names parse, and each back to its own name |
| WireEnums.PostReferenceTypeRoundTrip | packages/bindings/src/posts/models.rs:91-103 | every reference type parses back from its wire name |
| WireExamples.MediaExample | packages/bindings/src/posts/custom_serialization.rs:201-222 | the media of the source's unit test encodes to the document that test expects and decodes back from it |
| WireExamples.PollWithTallyExample | packages/bindings/src/posts/custom_serialization.rs:225-309 | the poll of the source's unit test, with a tally, encodes to the document that test expects, votes as `"1"`, and decodes back from it |
| WireExamples.PollWithoutTallyExample | packages/bindings/src/posts/custom_serialization.rs:254-337 | the same poll without a tally writes `"final_tally_results": null` and decodes back from it |
| WireExamples.UnknownTypeUriExample | packages/bindings/src/posts/custom_serialization.rs:166-169 | an object typed with an unknown URI fails as a missing `@type` |
| WireExamples.PollMissingQuestionExample | packages/bindings/src/posts/custom_serialization.rs:149 | a poll without its question fails naming `question` |
| WireExamples.DuplicateUriExample | packages/bindings/src/posts/custom_serialization.rs:97-100 | a repeated `uri` fails as a duplicate before the type is resolved |

## Left out

- JSON text: lexing, printing, escaping and whitespace. The model works on a JSON tree.
- Serde plumbing: visitor `expecting` messages, formatter, `deserialize_struct` and map access. Only the error kind and the field name are kept.
- Error message text.
- `JsonSchema` derives and schema generation.
- The plain records `Post`, `TagEntity`, `UrlEntity`, `Entities`, `PostReference` and `UserAnswer`. They are field-for-field derived mappings with no logic. `Addr` is an opaque foreign type.
- The array (positional) form that derived records also accept from a JSON array.
- Negative and fractional JSON numbers. `JNum` holds a natural number, so a `u32` read from such a number is out of scope.
- Leading `+` signs and other lenient spellings that the `Uint64` string parser may accept. The decoder accepts non-empty digit strings below 2^64.
- RFC 3339 validation of `end_date`, which the code treats as an opaque string.
- Poll business rules such as date order, vote totals and answer-index bounds. The code has none.
- Recursion-depth limits of the JSON reader.
- Encoders: `EncodePostAttachment`, `EncodeAttachment`, `EncodeProvidedAnswer`, `EncodeTally` and `EncodeAnswerResult` carry no contract of their own. Their output is stated by the `Encoding` lemmas (key order, value forms) and their inverse by the `RoundTrip` lemmas; `EncodeU64` is stated by `Primitives.U64RoundTrip` and `Decimal.ToDecimal`.
- Codec.DecodePostAttachment: its own contract only states that a non-object is the wrong type. The scan, resolve and round-trip properties are stated by the lemmas in `Envelope`, `Resolution` and `RoundTrip`.

## Choices the code makes

- Unknown envelope keys are rejected with `UnknownField`. The `Field` enum has no catch-all variant, so the derived identifier refuses any other key. A lenient policy would also be defensible, but the model follows the code.
- An absent `@type` and an unrecognised type URI both report `MissingField("@type")`, as the code does. There is no separate error kind for an unknown variant.
- A value of the wrong JSON kind under a known key fails with `WrongType` as soon as that entry is read. Later entries are not looked at.
- An integer of 2^64 or more is held by the JSON reader as a float, and the `u32` reader accepts no float. So `section_id`, `id` and `answer_index` fail with `WrongType` from 2^64 on, but with `InvalidValue` between 2^32 and 2^64.
- Re-encoding a decoded object gives back the same value, but not always the same keys. The decoder accepts poll keys on a media object and then discards them (`custom_serialization.rs` lines 144-147); `Stability.ReencodingDropsPollKeys` shows a four-key object that re-encodes with three. The encoder always writes the tally key (line 38), while the decoder accepts a poll without it (lines 157-158); `Stability.ReencodingAddsNullTally` shows the key coming back as null. `RoundTrip.DecodeIsStable` states what does hold: decoding the re-encoding gives the same result.
- A reply setting is also read from the externally tagged form of a unit variant, an object `{"REPLY_SETTING_EVERYONE": null}`, because the JSON reader's enum deserializer accepts it. In that form the name is checked first, then the null value, then that no other entry follows.
