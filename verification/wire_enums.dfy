/** Wire names of the unit enums of the posts model. A unit variant travels
    as a JSON string holding its renamed identifier. */
module WireEnums {
  import opened Results
  import opened Json
  import opened Models

  const ReplySettingNames: seq<string> := [
    "REPLY_SETTING_UNSPECIFIED",
    "REPLY_SETTING_EVERYONE",
    "REPLY_SETTING_FOLLOWERS",
    "REPLY_SETTING_MUTUAL",
    "REPLY_SETTING_MENTIONS"
  ]

  const PostReferenceTypeNames: seq<string> := ["unspecified", "replay_to", "quote", "repost"]

  function ReplySettingName(r: ReplySetting): (name: string)
    ensures name in ReplySettingNames
  {
    match r
    case Unspecified => "REPLY_SETTING_UNSPECIFIED"
    case Everyone => "REPLY_SETTING_EVERYONE"
    case Followers => "REPLY_SETTING_FOLLOWERS"
    case Mutual => "REPLY_SETTING_MUTUAL"
    case Mentions => "REPLY_SETTING_MENTIONS"
  }

  /** Exact, case-sensitive lookup of a reply setting by its wire name. */
  function ParseReplySetting(name: string): (r: Option<ReplySetting>)
    ensures r.Some? <==> name in ReplySettingNames
    ensures r.Some? ==> ReplySettingName(r.value) == name
  {
    if name == "REPLY_SETTING_UNSPECIFIED" then Some(Unspecified)
    else if name == "REPLY_SETTING_EVERYONE" then Some(Everyone)
    else if name == "REPLY_SETTING_FOLLOWERS" then Some(Followers)
    else if name == "REPLY_SETTING_MUTUAL" then Some(Mutual)
    else if name == "REPLY_SETTING_MENTIONS" then Some(Mentions)
    else None
  }

  /** Variant to name to variant gives back the variant, so no two variants
      share a wire name. */
  lemma ReplySettingRoundTrip(r: ReplySetting)
    ensures ParseReplySetting(ReplySettingName(r)) == Some(r)
  {
  }

  function PostReferenceTypeName(t: PostReferenceType): (name: string)
    ensures name in PostReferenceTypeNames
  {
    match t
    case RefUnspecified => "unspecified"
    case ReplayTo => "replay_to"
    case Quote => "quote"
    case Repost => "repost"
  }

  function ParsePostReferenceType(name: string): (r: Option<PostReferenceType>)
    ensures r.Some? <==> name in PostReferenceTypeNames
    ensures r.Some? ==> PostReferenceTypeName(r.value) == name
  {
    if name == "unspecified" then Some(RefUnspecified)
    else if name == "replay_to" then Some(ReplayTo)
    else if name == "quote" then Some(Quote)
    else if name == "repost" then Some(Repost)
    else None
  }

  lemma PostReferenceTypeRoundTrip(t: PostReferenceType)
    ensures ParsePostReferenceType(PostReferenceTypeName(t)) == Some(t)
  {
  }

  function EncodeReplySetting(r: ReplySetting): Json {
    JStr(ReplySettingName(r))
  }

  /** The externally tagged form of a unit variant: an object whose only
      entry has the variant's name as key and null as value. */
  predicate TaggedUnit(j: Json) {
    j.JObj? && |j.fields| == 1 && j.fields[0].1 == JNull
  }

  /** A reply setting is read from a JSON string naming one of the five
      constants, or from the tagged form `{name: null}` of that constant.
      In the tagged form the name is read first, then the null, then the
      end of the object. */
  function DecodeReplySetting(j: Json): (r: Result<ReplySetting, DecodeError>)
    ensures r.Ok? <==> (j.JStr? && j.s in ReplySettingNames) || (TaggedUnit(j) && j.fields[0].0 in ReplySettingNames)
    ensures r.Ok? && j.JStr? ==> EncodeReplySetting(r.value) == j
    ensures j.JStr? && j.s !in ReplySettingNames ==> r == Err(UnknownVariant(j.s))
    ensures r.Ok? && j.JObj? ==> j == JObj([(ReplySettingName(r.value), JNull)])
    ensures j.JObj? && |j.fields| > 0 && j.fields[0].0 !in ReplySettingNames ==> r == Err(UnknownVariant(j.fields[0].0))
    ensures !j.JStr? && !j.JObj? ==> r == Err(WrongType)
  {
    match j
    case JStr(name) => ParseReplySetting(name).OkOr(UnknownVariant(name))
    case JObj(fields) =>
      if |fields| == 0 then Err(WrongType)
      else
        (match ParseReplySetting(fields[0].0)
         case None => Err(UnknownVariant(fields[0].0))
         case Some(r) => if fields[0].1 != JNull || |fields| > 1 then Err(WrongType) else Ok(r))
    case _ => Err(WrongType)
  }

  /** Every reply setting also reads back from its tagged form. */
  lemma TaggedReplySettingRoundTrip(r: ReplySetting)
    ensures DecodeReplySetting(JObj([(ReplySettingName(r), JNull)])) == Ok(r)
  {
    ReplySettingRoundTrip(r);
  }

  lemma ReplySettingJsonRoundTrip(r: ReplySetting)
    ensures DecodeReplySetting(EncodeReplySetting(r)) == Ok(r)
  {
    ReplySettingRoundTrip(r);
  }
}
