/**
 * The 34 RPC method records `TLChat*` of the chat service.
 *
 * A record's Encode and Decode are gated on the constructor the record already
 * holds: when it is the method's own tag, Encode writes the tag, the flags word if
 * the method has flag fields, and the fields in declared order, and Decode reads
 * the flags word and the fields (not the tag, which the caller has consumed);
 * with any other constructor Encode writes nothing and Decode reads nothing and
 * returns the cursor's error state.
 */
module ChatMethods {
  import opened Wire
  import opened Schema

  datatype Method =
    | GetMutableChat
    | GetChatListByIdList
    | GetChatBySelfId
    | CreateChat2
    | DeleteChat
    | DeleteChatUser
    | EditChatTitle
    | EditChatAbout
    | EditChatPhoto
    | EditChatAdmin
    | EditChatDefaultBannedRights
    | AddChatUser
    | GetMutableChatByLink
    | ToggleNoForwards
    | MigratedToChannel
    | GetChatParticipantIdList
    | GetUsersChatIdList
    | GetMyChatList
    | ExportChatInvite
    | GetAdminsWithInvites
    | GetExportedChatInvite
    | GetExportedChatInvites
    | CheckChatInvite
    | ImportChatInvite
    | GetChatInviteImporters
    | DeleteExportedChatInvite
    | DeleteRevokedExportedChatInvites
    | EditExportedChatInvite
    | SetChatAvailableReactions
    | SetHistoryTTL
    | Search
    | GetRecentChatInviteRequesters
    | HideChatJoinRequests
    | ImportChatInvite2

  /** The constructor tag of each method. */
  function TagOf(m: Method): (t: int)
    ensures 0 <= t < 0x1_0000_0000
  {
    match m
    case GetMutableChat => 0x2c2c25d2
    case GetChatListByIdList => 0xe740f539
    case GetChatBySelfId => 0x49b71a48
    case CreateChat2 => 0xe43f61af
    case DeleteChat => 0x6d11ec1e
    case DeleteChatUser => 0x0b270fd5
    case EditChatTitle => 0x95c59ea7
    case EditChatAbout => 0x5c737c78
    case EditChatPhoto => 0x45c2a668
    case EditChatAdmin => 0x1905e5ec
    case EditChatDefaultBannedRights => 0x5a34a687
    case AddChatUser => 0x7c5da48d
    case GetMutableChatByLink => 0xa266278b
    case ToggleNoForwards => 0xd5952af9
    case MigratedToChannel => 0x083faadf
    case GetChatParticipantIdList => 0x329622a9
    case GetUsersChatIdList => 0x2f36ab4c
    case GetMyChatList => 0xf3756c88
    case ExportChatInvite => 0xc5cf804b
    case GetAdminsWithInvites => 0xd2ea41d2
    case GetExportedChatInvite => 0xddea3250
    case GetExportedChatInvites => 0xb48f18f6
    case CheckChatInvite => 0x7387f28c
    case ImportChatInvite => 0x58e660d4
    case GetChatInviteImporters => 0x9846557f
    case DeleteExportedChatInvite => 0x562288b8
    case DeleteRevokedExportedChatInvites => 0xd0126269
    case EditExportedChatInvite => 0xaf994c76
    case SetChatAvailableReactions => 0xc4d08972
    case SetHistoryTTL => 0x3cfb6384
    case Search => 0x21e014fb
    case GetRecentChatInviteRequesters => 0xfedc1098
    case HideChatJoinRequests => 0x3ea52cd1
    case ImportChatInvite2 => 0xdcd93dbf
  }

  /** chat_id, admin_id, legacy_revoke_permanent, request_needed, expire_date, usage_limit, title */
  const ExportChatInviteFields: seq<Field> :=
    [Plain(KLong), Plain(KLong), FlagTrue(2), FlagTrue(3), Gated(KInt, 0), Gated(KInt, 1), Gated(KString, 4)]

  /** getExportedChatInvites: chat_id, admin_id, revoked, offset_date, offset_link, limit */
  const ListingFields: seq<Field> :=
    [Plain(KLong), Plain(KLong), FlagTrue(3), Gated(KInt, 2), Gated(KString, 2), Plain(KInt)]

  /** The methods whose generated `Encode` writes a flags word. */
  const FlaggedMethods: set<Method> :=
    {ExportChatInvite, GetExportedChatInvites, GetChatInviteImporters, EditExportedChatInvite, HideChatJoinRequests}

  /**
   * The fields of each method in wire order. Every method carries at least one
   * field; the five flagged methods open with two plain ids followed by a
   * flagged field, the others have no flagged field; every flag bit is one of
   * bits 0 to 4.
   */
  function FieldsOf(m: Method): (fs: seq<Field>)
    ensures |fs| > 0
    ensures m in FlaggedMethods ==> |fs| > 2 && fs[0] == fs[1] == Plain(KLong) && IsFlagged(fs[2])
    ensures m !in FlaggedMethods ==> forall i :: 0 <= i < |fs| ==> !IsFlagged(fs[i])
    ensures forall i :: 0 <= i < |fs| && IsFlagged(fs[i]) ==> fs[i].bit < 5
  {
    match m
    case GetMutableChat =>
      // chat_id
      [Plain(KLong)]
    case GetChatListByIdList =>
      // self_id, id_list
      [Plain(KLong), Plain(KLongVec)]
    case GetChatBySelfId =>
      // self_id, chat_id
      [Plain(KLong), Plain(KLong)]
    case CreateChat2 =>
      // creator_id, user_id_list, title
      [Plain(KLong), Plain(KLongVec), Plain(KString)]
    case DeleteChat =>
      // chat_id, operator_id
      [Plain(KLong), Plain(KLong)]
    case DeleteChatUser =>
      // chat_id, operator_id, delete_user_id
      [Plain(KLong), Plain(KLong), Plain(KLong)]
    case EditChatTitle =>
      // chat_id, edit_user_id, title
      [Plain(KLong), Plain(KLong), Plain(KString)]
    case EditChatAbout =>
      // chat_id, edit_user_id, about
      [Plain(KLong), Plain(KLong), Plain(KString)]
    case EditChatPhoto =>
      // chat_id, edit_user_id, chat_photo
      [Plain(KLong), Plain(KLong), Plain(KObj(Photo))]
    case EditChatAdmin =>
      // chat_id, operator_id, edit_chat_admin_id, is_admin
      [Plain(KLong), Plain(KLong), Plain(KLong), Plain(KObj(Bool))]
    case EditChatDefaultBannedRights =>
      // chat_id, operator_id, banned_rights
      [Plain(KLong), Plain(KLong), Plain(KObj(ChatBannedRights))]
    case AddChatUser =>
      // chat_id, inviter_id, user_id
      [Plain(KLong), Plain(KLong), Plain(KLong)]
    case GetMutableChatByLink =>
      // link
      [Plain(KString)]
    case ToggleNoForwards =>
      // chat_id, operator_id, enabled
      [Plain(KLong), Plain(KLong), Plain(KObj(Bool))]
    case MigratedToChannel =>
      // chat, id, access_hash
      [Plain(KObj(MutableChat)), Plain(KLong), Plain(KLong)]
    case GetChatParticipantIdList =>
      // chat_id
      [Plain(KLong)]
    case GetUsersChatIdList =>
      // id
      [Plain(KLongVec)]
    case GetMyChatList =>
      // user_id, is_creator
      [Plain(KLong), Plain(KObj(Bool))]
    case ExportChatInvite => ExportChatInviteFields
    case GetAdminsWithInvites =>
      // self_id, chat_id
      [Plain(KLong), Plain(KLong)]
    case GetExportedChatInvite =>
      // chat_id, link
      [Plain(KLong), Plain(KString)]
    case GetExportedChatInvites => ListingFields
    case CheckChatInvite =>
      // self_id, hash
      [Plain(KLong), Plain(KString)]
    case ImportChatInvite =>
      // self_id, hash
      [Plain(KLong), Plain(KString)]
    case GetChatInviteImporters =>
      // self_id, chat_id, requested, link, q, offset_date, offset_user, limit
      [Plain(KLong), Plain(KLong), FlagTrue(0), Gated(KString, 1), Gated(KString, 2), Plain(KInt), Plain(KLong), Plain(KInt)]
    case DeleteExportedChatInvite =>
      // self_id, chat_id, link
      [Plain(KLong), Plain(KLong), Plain(KString)]
    case DeleteRevokedExportedChatInvites =>
      // self_id, chat_id, admin_id
      [Plain(KLong), Plain(KLong), Plain(KLong)]
    case EditExportedChatInvite =>
      // self_id, chat_id, revoked, link, expire_date, usage_limit, request_needed, title
      [Plain(KLong), Plain(KLong), FlagTrue(2), Plain(KString), Gated(KInt, 0), Gated(KInt, 1), Gated(KObj(Bool), 3), Gated(KString, 4)]
    case SetChatAvailableReactions =>
      // self_id, chat_id, available_reactions_type, available_reactions
      [Plain(KLong), Plain(KLong), Plain(KInt), Plain(KStringVec)]
    case SetHistoryTTL =>
      // self_id, chat_id, ttl_period
      [Plain(KLong), Plain(KLong), Plain(KInt)]
    case Search =>
      // self_id, q, offset, limit
      [Plain(KLong), Plain(KString), Plain(KLong), Plain(KInt)]
    case GetRecentChatInviteRequesters =>
      // self_id, chat_id
      [Plain(KLong), Plain(KLong)]
    case HideChatJoinRequests =>
      // self_id, chat_id, approved, link, user_id
      [Plain(KLong), Plain(KLong), FlagTrue(0), Gated(KString, 1), Gated(KLong, 2)]
    case ImportChatInvite2 =>
      // self_id, hash
      [Plain(KLong), Plain(KString)]
  }

  /** The method a tag belongs to, if any (searched by quarter of the tag range). */
  function MethodOfTag(t: int): (m: Option<Method>)
    ensures m.Some? ==> TagOf(m.value) == t
  {
    if t < 0x4000_0000 then MethodOfTagQ0(t)
    else if t < 0x8000_0000 then MethodOfTagQ1(t)
    else if t < 0xc000_0000 then MethodOfTagQ2(t)
    else MethodOfTagQ3(t)
  }

  function MethodOfTagQ0(t: int): (m: Option<Method>)
    ensures m.Some? ==> TagOf(m.value) == t
  {
    if t == 0x083faadf then Some(MigratedToChannel)
    else if t == 0x0b270fd5 then Some(DeleteChatUser)
    else if t == 0x1905e5ec then Some(EditChatAdmin)
    else if t == 0x21e014fb then Some(Search)
    else if t == 0x2c2c25d2 then Some(GetMutableChat)
    else if t == 0x2f36ab4c then Some(GetUsersChatIdList)
    else if t == 0x329622a9 then Some(GetChatParticipantIdList)
    else if t == 0x3cfb6384 then Some(SetHistoryTTL)
    else if t == 0x3ea52cd1 then Some(HideChatJoinRequests)
    else None
  }

  function MethodOfTagQ1(t: int): (m: Option<Method>)
    ensures m.Some? ==> TagOf(m.value) == t
  {
    if t == 0x45c2a668 then Some(EditChatPhoto)
    else if t == 0x49b71a48 then Some(GetChatBySelfId)
    else if t == 0x562288b8 then Some(DeleteExportedChatInvite)
    else if t == 0x58e660d4 then Some(ImportChatInvite)
    else if t == 0x5a34a687 then Some(EditChatDefaultBannedRights)
    else if t == 0x5c737c78 then Some(EditChatAbout)
    else if t == 0x6d11ec1e then Some(DeleteChat)
    else if t == 0x7387f28c then Some(CheckChatInvite)
    else if t == 0x7c5da48d then Some(AddChatUser)
    else None
  }

  function MethodOfTagQ2(t: int): (m: Option<Method>)
    ensures m.Some? ==> TagOf(m.value) == t
  {
    if t == 0x95c59ea7 then Some(EditChatTitle)
    else if t == 0x9846557f then Some(GetChatInviteImporters)
    else if t == 0xa266278b then Some(GetMutableChatByLink)
    else if t == 0xaf994c76 then Some(EditExportedChatInvite)
    else if t == 0xb48f18f6 then Some(GetExportedChatInvites)
    else None
  }

  function MethodOfTagQ3(t: int): (m: Option<Method>)
    ensures m.Some? ==> TagOf(m.value) == t
  {
    if t == 0xc4d08972 then Some(SetChatAvailableReactions)
    else if t == 0xc5cf804b then Some(ExportChatInvite)
    else if t == 0xd0126269 then Some(DeleteRevokedExportedChatInvites)
    else if t == 0xd2ea41d2 then Some(GetAdminsWithInvites)
    else if t == 0xd5952af9 then Some(ToggleNoForwards)
    else if t == 0xdcd93dbf then Some(ImportChatInvite2)
    else if t == 0xddea3250 then Some(GetExportedChatInvite)
    else if t == 0xe43f61af then Some(CreateChat2)
    else if t == 0xe740f539 then Some(GetChatListByIdList)
    else if t == 0xf3756c88 then Some(GetMyChatList)
    else if t == 0xfedc1098 then Some(GetRecentChatInviteRequesters)
    else None
  }

  /** Every method is found again from its tag, so no two methods share a tag. */
  lemma TagIdentifiesMethod(m: Method)
    ensures MethodOfTag(TagOf(m)) == Some(m)
  {
  }

  /** Only the offsets of the exported-invite listing share a bit; every other method gives each flagged field its own. */
  lemma SchemaBitsDistinct(m: Method)
    ensures BitsDistinct(FieldsOf(m)) <==> m != GetExportedChatInvites
  {
    if m == GetExportedChatInvites {
      var fs := FieldsOf(m);
      assert IsFlagged(fs[3]) && IsFlagged(fs[4]) && fs[3].bit == fs[4].bit;
    }
  }

  /** A method's body opens with a flags word exactly when it is one of the five flagged methods. */
  lemma FlagsWordIffFlagged(m: Method, values: seq<Value>)
    requires |values| == |FieldsOf(m)|
    ensures HasFlags(FieldsOf(m)) <==> m in FlaggedMethods
    ensures |FlagsTokens(FieldsOf(m), values)| == if m in FlaggedMethods then 1 else 0
  {
  }

  // ---------------------------------------------------------------------------
  // Records

  datatype MethodRecord = MethodRecord(rpc: Method, constructorId: int32, values: seq<Value>)

  /** The record's values have the types its Go struct declares. */
  predicate Valid(r: MethodRecord)
  {
    WellTyped(FieldsOf(r.rpc), r.values)
  }

  /** `&TLChatX{Constructor: c}`: every field at its zero value. */
  function NewRecord(m: Method, c: int32): (r: MethodRecord)
    ensures Valid(r) && r.rpc == m && r.constructorId == c
    ensures forall i :: 0 <= i < |r.values| ==> !Present(FieldsOf(m)[i], r.values[i])
  {
    MethodRecord(m, c, Zeros(FieldsOf(m)))
  }

  /** The flags word a record computes, whether or not its method writes one. */
  function RecordFlags(r: MethodRecord): nat
    requires Valid(r)
  {
    FlagsOf(FieldsOf(r.rpc), r.values)
  }

  /** `TLChatX.Encode(layer)` */
  function Encode(r: MethodRecord): (out: seq<Token>)
    requires Valid(r)
    requires U32(r.constructorId) == TagOf(r.rpc) ==> Writable(FieldsOf(r.rpc), r.values)
    ensures U32(r.constructorId) != TagOf(r.rpc) ==> out == []
    ensures U32(r.constructorId) == TagOf(r.rpc) ==> |out| > 0 && out[0] == TagWord(TagOf(r.rpc))
  {
    if U32(r.constructorId) == TagOf(r.rpc) then
      [TagWord(TagOf(r.rpc))] + EncodeBody(FieldsOf(r.rpc), r.values)
    else
      []
  }

  /** `TLChatX.Decode(dBuf)` */
  function Decode(r: MethodRecord, d: Decoder): (res: Decoded<MethodRecord>)
    requires Valid(r)
    ensures Valid(res.value) && res.value.rpc == r.rpc && res.value.constructorId == r.constructorId
    ensures res.err == GetError(res.cursor)
    ensures U32(r.constructorId) != TagOf(r.rpc) ==> res == Decoded(r, d, GetError(d))
    ensures d.fault ==> res.cursor == d
  {
    if U32(r.constructorId) == TagOf(r.rpc) then
      var body := DecodeBody(FieldsOf(r.rpc), r.values, d);
      Decoded(r.(values := body.value), body.next, GetError(body.next))
    else
      Decoded(r, d, GetError(d))
  }

  /** With a foreign constructor, Encode writes nothing and Decode reads nothing. */
  lemma MismatchIsInert(r: MethodRecord, d: Decoder)
    requires Valid(r) && U32(r.constructorId) != TagOf(r.rpc)
    ensures Encode(r) == [] && Decode(r, d) == Decoded(r, d, GetError(d))
  {
  }

  /** After its tag, a record writes its body: the flags word if any, then the fields. */
  lemma EncodeIsTagThenBody(r: MethodRecord)
    requires Valid(r) && U32(r.constructorId) == TagOf(r.rpc) && Writable(FieldsOf(r.rpc), r.values)
    ensures Encode(r)[1..] == EncodeBody(FieldsOf(r.rpc), r.values)
  {
  }

  /**
   * Decoding into a record that already holds values does not clear them: a
   * flagged field whose bit the incoming flags word leaves clear keeps what it had.
   */
  lemma UnsetFieldsKeepOldValues(r: MethodRecord, d: Decoder, i: nat)
    requires Valid(r) && U32(r.constructorId) == TagOf(r.rpc) && HasFlags(FieldsOf(r.rpc))
    requires i < |r.values| && IsFlagged(FieldsOf(r.rpc)[i]) && !BitOf(ReadFlags(d).value, FieldsOf(r.rpc)[i].bit)
    ensures Decode(r, d).value.values[i] == r.values[i]
  {
  }

  // ---------------------------------------------------------------------------
  // Round trip

  /** The offsets of the exported-invite listing both set, or both unset. */
  predicate OffsetsAgree(r: MethodRecord)
    requires r.rpc == GetExportedChatInvites && Valid(r)
  {
    r.values[3].o.Some? <==> r.values[4].o.Some?
  }

  lemma OffsetsFaithful(r: MethodRecord)
    requires r.rpc == GetExportedChatInvites && Valid(r) && OffsetsAgree(r)
    ensures FlagsFaithful(FieldsOf(r.rpc), r.values, RecordFlags(r))
  {
    var fs := FieldsOf(r.rpc);
    forall i | 0 <= i < |fs| && IsFlagged(fs[i])
      ensures BitOf(RecordFlags(r), fs[i].bit) <==> Present(fs[i], r.values[i])
    {
      FlagsOfBits(fs, r.values, fs[i].bit);
    }
  }

  /** The flags word a record writes is faithful to every flagged field. */
  lemma RecordFlagsFaithful(r: MethodRecord)
    requires Valid(r)
    requires r.rpc == GetExportedChatInvites ==> OffsetsAgree(r)
    ensures FlagsFaithful(FieldsOf(r.rpc), r.values, RecordFlags(r))
  {
    SchemaBitsDistinct(r.rpc);
    if r.rpc == GetExportedChatInvites {
      OffsetsFaithful(r);
    } else {
      DistinctBitsAreFaithful(FieldsOf(r.rpc), r.values);
    }
  }

  /**
   * decode(encode(x)) == x: a fresh record of the same method and constructor
   * reads back every field of `x` from its encoding (after the tag, which the
   * caller consumes), stops at the end of it and reports no error. For the
   * exported-invite listing the offsets must agree (see
   * `GetExportedChatInvitesRoundTripIff`).
   */
  lemma RoundTrip(r: MethodRecord, rest: seq<Token>)
    requires Valid(r) && U32(r.constructorId) == TagOf(r.rpc)
    requires Writable(FieldsOf(r.rpc), r.values)
    requires r.rpc == GetExportedChatInvites ==> OffsetsAgree(r)
    ensures Decode(NewRecord(r.rpc, r.constructorId), Start(Encode(r)[1..] + rest)) == Decoded(r, Start(rest), None)
  {
    RecordFlagsFaithful(r);
    BodyRoundTrip(FieldsOf(r.rpc), r.values, rest);
    EncodeIsTagThenBody(r);
  }

  // ---------------------------------------------------------------------------
  // exportChatInvite

  /**
   * The flags word of exportChatInvite: bits 0, 1 and 4 say expire_date,
   * usage_limit and title are present, bits 2 and 3 are the two booleans, and
   * no other bit is set.
   */
  lemma ExportChatInviteFlagBits(r: MethodRecord, k: nat)
    requires r.rpc == ExportChatInvite && Valid(r)
    ensures BitOf(RecordFlags(r), k) <==>
      || (k == 0 && r.values[4].o.Some?)
      || (k == 1 && r.values[5].o.Some?)
      || (k == 2 && r.values[2].b)
      || (k == 3 && r.values[3].b)
      || (k == 4 && r.values[6].o.Some?)
  {
    var fs := FieldsOf(r.rpc);
    FlagsOfBits(fs, r.values, k);
    if BitOf(RecordFlags(r), k) {
      var i :| 0 <= i < |fs| && IsFlagged(fs[i]) && fs[i].bit == k && Present(fs[i], r.values[i]);
      assert 2 <= i;
    } else {
      assert !(IsFlagged(fs[2]) && fs[2].bit == k && Present(fs[2], r.values[2]));
      assert !(IsFlagged(fs[3]) && fs[3].bit == k && Present(fs[3], r.values[3]));
      assert !(IsFlagged(fs[4]) && fs[4].bit == k && Present(fs[4], r.values[4]));
      assert !(IsFlagged(fs[5]) && fs[5].bit == k && Present(fs[5], r.values[5]));
      assert !(IsFlagged(fs[6]) && fs[6].bit == k && Present(fs[6], r.values[6]));
    }
  }

  /** The shape of exportChatInvite's fields, element by element. */
  predicate ExportChatInviteShape(fs: seq<Field>)
  {
    && |fs| == 7
    && fs[0] == Plain(KLong) && fs[1] == Plain(KLong) && fs[2] == FlagTrue(2) && fs[3] == FlagTrue(3)
    && fs[4] == Gated(KInt, 0) && fs[5] == Gated(KInt, 1) && fs[6] == Gated(KString, 4)
  }

  /** How many tokens exportChatInvite's fields write: one per id and one per gated field that is set. */
  lemma ExportChatInviteFieldCount(fs: seq<Field>, v: seq<Value>)
    requires ExportChatInviteShape(fs) && WellTyped(fs, v) && Writable(fs, v)
    ensures |EncodeFields(fs, v)| == 2 + (if v[4].o.Some? then 1 else 0) + (if v[5].o.Some? then 1 else 0)
      + (if v[6].o.Some? then 1 else 0)
  {
    assert FieldFits(fs[4], v[4]) && FieldFits(fs[5], v[5]) && FieldFits(fs[6], v[6]);
    assert fs[0] == fs[0] && v[0].Val? && fs[1].Plain? && v[1].Val?;
    assert fs[0..] == fs && v[0..] == v;
    EncodeFieldsAt(fs, v, 6);
    assert fs[7..] == [];
    EncodeFieldsAt(fs, v, 5);
    EncodeFieldsAt(fs, v, 4);
    EncodeFieldsAt(fs, v, 3);
    EncodeFieldsAt(fs, v, 2);
    EncodeFieldsAt(fs, v, 1);
    EncodeFieldsAt(fs, v, 0);
  }

  /** The two booleans of exportChatInvite occupy a bit and no token: only the gated fields add to the encoding. */
  lemma ExportChatInviteLength(r: MethodRecord)
    requires r.rpc == ExportChatInvite && Valid(r) && U32(r.constructorId) == TagOf(r.rpc)
    requires Writable(FieldsOf(r.rpc), r.values)
    ensures |Encode(r)| == 4 + (if r.values[4].o.Some? then 1 else 0) + (if r.values[5].o.Some? then 1 else 0)
      + (if r.values[6].o.Some? then 1 else 0)
  {
    var fs := ExportChatInviteFields;
    assert ExportChatInviteShape(fs);
    assert HasFlags(fs) by {
      assert IsFlagged(fs[2]);
    }
    EncodeIsTagThenBody(r);
    ExportChatInviteFieldCount(fs, r.values);
  }

  // ---------------------------------------------------------------------------
  // getExportedChatInvites: offset_date and offset_link share bit 2

  /** The tokens the listing's two offsets write. */
  function OffsetTokens(v: seq<Value>): seq<Token>
    requires |v| == 6 && FieldFits(Gated(KInt, 2), v[3]) && FieldFits(Gated(KString, 2), v[4])
  {
    (if v[3].o.Some? then [Word(v[3].o.value.i)] else []) + (if v[4].o.Some? then [Str(v[4].o.value.s)] else [])
  }

  /** The shape of the listing's fields, element by element. */
  predicate ListingShape(fs: seq<Field>)
  {
    && |fs| == 6
    && fs[0] == Plain(KLong) && fs[1] == Plain(KLong) && fs[2] == FlagTrue(3)
    && fs[3] == Gated(KInt, 2) && fs[4] == Gated(KString, 2) && fs[5] == Plain(KInt)
  }

  /** The listing's fields on the wire: the two ids, the offsets that are set, the limit. */
  lemma ListingFieldTokens(fs: seq<Field>, v: seq<Value>)
    requires ListingShape(fs) && WellTyped(fs, v)
    ensures EncodeFields(fs, v) == [Long(v[0].s.l)] + ([Long(v[1].s.l)] + (OffsetTokens(v) + [Word(v[5].s.i)]))
  {
    assert FieldFits(fs[0], v[0]) && FieldFits(fs[1], v[1]);
    ListingTailTokens(fs, v);
    assert fs[0..] == fs && v[0..] == v;
    EncodeFieldsAt(fs, v, 2);
    EncodeFieldsAt(fs, v, 1);
    EncodeFieldsAt(fs, v, 0);
  }

  /** From the offsets on, the listing writes the offsets that are set and the limit. */
  lemma ListingTailTokens(fs: seq<Field>, v: seq<Value>)
    requires ListingShape(fs) && WellTyped(fs, v)
    ensures EncodeFields(fs[3..], v[3..]) == OffsetTokens(v) + [Word(v[5].s.i)]
  {
    assert FieldFits(fs[3], v[3]) && FieldFits(fs[4], v[4]) && FieldFits(fs[5], v[5]);
    EncodeFieldsAt(fs, v, 5);
    assert fs[6..] == [];
    EncodeFieldsAt(fs, v, 4);
    EncodeFieldsAt(fs, v, 3);
  }

  /** The listing reads its two ids first; the boolean after them reads nothing. */
  lemma ListingReadsIds(fs: seq<Field>, flags: nat, olds: seq<Value>, a: int64, b: int64, t2: seq<Token>)
    requires ListingShape(fs) && |olds| == 6
    ensures DecodeFields(fs, flags, olds, Start([Long(a)] + ([Long(b)] + t2))).next
      == DecodeFields(fs[3..], flags, olds[3..], Start(t2)).next
  {
    var t1 := [Long(b)] + t2;
    var t0 := [Long(a)] + t1;
    assert fs[0..] == fs && olds[0..] == olds;
    DecodeFieldsAt(fs, flags, olds, Start(t0), 0);
    assert DecodeField(fs[0], flags, olds[0], Start(t0)).next == Start(t1);
    DecodeFieldsAt(fs, flags, olds, Start(t1), 1);
    assert DecodeField(fs[1], flags, olds[1], Start(t1)).next == Start(t2);
    DecodeFieldsAt(fs, flags, olds, Start(t2), 2);
    assert DecodeField(fs[2], flags, olds[2], Start(t2)).next == Start(t2);
  }

  /** With only offset_date written, bit 2 makes the decoder read a string where the limit word is. */
  lemma LoneDateFaults(fs: seq<Field>, flags: nat, olds: seq<Value>, a: int64, b: int64, date: int32, limit: int32, rest: seq<Token>)
    requires ListingShape(fs) && BitOf(flags, 2) && |olds| == 6
    ensures DecodeFields(fs, flags, olds, Start([Long(a)] + ([Long(b)] + ([Word(date)] + ([Word(limit)] + rest))))).next.fault
  {
    var t3 := [Word(limit)] + rest;
    var t2 := [Word(date)] + t3;
    ListingReadsIds(fs, flags, olds, a, b, t2);
    DecodeFieldsAt(fs, flags, olds, Start(t2), 3);
    assert DecodeField(fs[3], flags, olds[3], Start(t2)).next == Start(t3);
    DecodeFieldsAt(fs, flags, olds, Start(t3), 4);
    assert DecodeField(fs[4], flags, olds[4], Start(t3)).next.fault;
  }

  /** With only offset_link written, bit 2 makes the decoder read a word where the link string is. */
  lemma LoneLinkFaults(fs: seq<Field>, flags: nat, olds: seq<Value>, a: int64, b: int64, link: string, limit: int32, rest: seq<Token>)
    requires ListingShape(fs) && BitOf(flags, 2) && |olds| == 6
    ensures DecodeFields(fs, flags, olds, Start([Long(a)] + ([Long(b)] + ([Str(link)] + ([Word(limit)] + rest))))).next.fault
  {
    var t2 := [Str(link)] + ([Word(limit)] + rest);
    ListingReadsIds(fs, flags, olds, a, b, t2);
    DecodeFieldsAt(fs, flags, olds, Start(t2), 3);
    assert DecodeField(fs[3], flags, olds[3], Start(t2)).next.fault;
  }

  /** A lone offset still sets bit 2, so the encoding announces both offsets but carries one. */
  lemma LoneOffsetSetsBit(r: MethodRecord)
    requires r.rpc == GetExportedChatInvites && Valid(r) && !OffsetsAgree(r)
    ensures HasFlags(FieldsOf(r.rpc)) && BitOf(RecordFlags(r), 2)
  {
    var fs := FieldsOf(r.rpc);
    assert IsFlagged(fs[2]);
    FlagsOfBits(fs, r.values, 2);
    if r.values[3].o.Some? {
      assert IsFlagged(fs[3]) && fs[3].bit == 2 && Present(fs[3], r.values[3]);
    } else {
      assert IsFlagged(fs[4]) && fs[4].bit == 2 && Present(fs[4], r.values[4]);
    }
  }

  /** The tokens of a listing request after its flags word, followed by `rest`. */
  function ListingTokens(fs: seq<Field>, v: seq<Value>, rest: seq<Token>): seq<Token>
    requires ListingShape(fs) && WellTyped(fs, v)
  {
    assert FieldFits(fs[0], v[0]) && FieldFits(fs[1], v[1]) && FieldFits(fs[5], v[5]);
    assert FieldFits(fs[3], v[3]) && FieldFits(fs[4], v[4]);
    [Long(v[0].s.l)] + ([Long(v[1].s.l)] + (OffsetTokens(v) + ([Word(v[5].s.i)] + rest)))
  }

  /** What a listing request writes after its tag: the flags word, then its fields. */
  lemma ListingBody(fs: seq<Field>, v: seq<Value>, rest: seq<Token>)
    requires ListingShape(fs) && WellTyped(fs, v)
    ensures EncodeBody(fs, v) + rest == [Word(FlagsWord(FlagsOf(fs, v)))] + ListingTokens(fs, v, rest)
  {
    assert IsFlagged(fs[2]);
    ListingFieldTokens(fs, v);
  }

  /** A listing request's decode reads the flags word, then the fields into zero values. */
  lemma ListingDecoding(r: MethodRecord, f: nat, tokens: seq<Token>)
    requires r == NewRecord(GetExportedChatInvites, r.constructorId) && U32(r.constructorId) == TagOf(r.rpc)
    requires f < 0x1_0000_0000
    ensures Decode(r, Start([Word(FlagsWord(f))] + tokens)).cursor == DecodeFields(ListingFields, f, Zeros(ListingFields), Start(tokens)).next
  {
    assert IsFlagged(ListingFields[2]);
    assert ReadFlags(Start([Word(FlagsWord(f))] + tokens)) == Read(f, Start(tokens));
  }

  /** Reading a listing body with bit 2 set but only one offset in it faults. */
  lemma ListingFaults(fs: seq<Field>, f: nat, v: seq<Value>, rest: seq<Token>)
    requires ListingShape(fs) && WellTyped(fs, v) && BitOf(f, 2)
    requires v[3].o.Some? != v[4].o.Some?
    ensures DecodeFields(fs, f, Zeros(fs), Start(ListingTokens(fs, v, rest))).next.fault
  {
    assert FieldFits(fs[0], v[0]) && FieldFits(fs[1], v[1]) && FieldFits(fs[5], v[5]);
    assert FieldFits(fs[3], v[3]) && FieldFits(fs[4], v[4]);
    if v[3].o.Some? {
      assert OffsetTokens(v) == [Word(v[3].o.value.i)];
      LoneDateFaults(fs, f, Zeros(fs), v[0].s.l, v[1].s.l, v[3].o.value.i, v[5].s.i, rest);
    } else {
      assert OffsetTokens(v) == [Str(v[4].o.value.s)];
      LoneLinkFaults(fs, f, Zeros(fs), v[0].s.l, v[1].s.l, v[4].o.value.s, v[5].s.i, rest);
    }
  }

  /** As written: a listing request with exactly one offset set does not decode. */
  lemma LoneOffsetFaults(r: MethodRecord, rest: seq<Token>)
    requires r.rpc == GetExportedChatInvites && Valid(r) && U32(r.constructorId) == TagOf(r.rpc)
    requires !OffsetsAgree(r)
    ensures Decode(NewRecord(r.rpc, r.constructorId), Start(Encode(r)[1..] + rest)).err == Some(BufferFault)
  {
    var fs := ListingFields;
    var f := RecordFlags(r);
    LoneOffsetSetsBit(r);
    assert ListingShape(fs);
    EncodeIsTagThenBody(r);
    ListingBody(fs, r.values, rest);
    var tokens := ListingTokens(fs, r.values, rest);
    ListingDecoding(NewRecord(r.rpc, r.constructorId), f, tokens);
    ListingFaults(fs, f, r.values, rest);
  }

  /**
   * The exported-invite listing round-trips exactly when its offsets agree;
   * otherwise decoding its encoding fails.
   */
  lemma GetExportedChatInvitesRoundTripIff(r: MethodRecord, rest: seq<Token>)
    requires r.rpc == GetExportedChatInvites && Valid(r) && U32(r.constructorId) == TagOf(r.rpc)
    ensures var res := Decode(NewRecord(r.rpc, r.constructorId), Start(Encode(r)[1..] + rest));
      && (res == Decoded(r, Start(rest), None) <==> OffsetsAgree(r))
      && (!OffsetsAgree(r) ==> res.err == Some(BufferFault))
  {
    if OffsetsAgree(r) {
      RoundTrip(r, rest);
    } else {
      LoneOffsetFaults(r, rest);
    }
  }

  /**
   * The listing with its offsets kept together: a lone offset is sent with its
   * partner at the zero value, so that bit 2 always announces both.
   */
  function PadOffsets(r: MethodRecord): (p: MethodRecord)
    requires Valid(r)
    ensures Valid(p) && p.rpc == r.rpc && p.constructorId == r.constructorId
    ensures r.rpc == GetExportedChatInvites ==> OffsetsAgree(p)
    ensures r.rpc == GetExportedChatInvites ==>
      forall i :: 0 <= i < |r.values| && r.values[i] != p.values[i] ==> (i == 3 || i == 4) && r.values[i].o.None?
    ensures r.rpc != GetExportedChatInvites ==> p == r
  {
    if r.rpc == GetExportedChatInvites then
      if r.values[3].o.Some? && r.values[4].o.None? then r.(values := r.values[4 := Opt(Some(StrV("")))])
      else if r.values[3].o.None? && r.values[4].o.Some? then r.(values := r.values[3 := Opt(Some(IntV(0)))])
      else r
    else
      r
  }

  /** Encode with the listing's offsets kept together; every other record as before. */
  function EncodeFixed(r: MethodRecord): (out: seq<Token>)
    requires Valid(r)
    requires U32(r.constructorId) == TagOf(r.rpc) ==> Writable(FieldsOf(r.rpc), r.values)
    ensures r.rpc != GetExportedChatInvites ==> out == Encode(r)
  {
    Encode(PadOffsets(r))
  }

  /**
   * With offsets kept together every record round-trips: the listing reads back
   * each offset that was set, and the zero value for a partner that was not.
   */
  lemma FixedRoundTrip(r: MethodRecord, rest: seq<Token>)
    requires Valid(r) && U32(r.constructorId) == TagOf(r.rpc)
    requires Writable(FieldsOf(r.rpc), r.values)
    ensures Decode(NewRecord(r.rpc, r.constructorId), Start(EncodeFixed(r)[1..] + rest))
      == Decoded(PadOffsets(r), Start(rest), None)
  {
    var p := PadOffsets(r);
    assert Writable(FieldsOf(p.rpc), p.values) by {
      var fs := FieldsOf(p.rpc);
      forall i | 0 <= i < |fs| && fs[i].Plain? ensures p.values[i].Val? {
        if r.rpc == GetExportedChatInvites {
          assert i != 3 && i != 4;
        }
      }
    }
    RoundTrip(p, rest);
  }
}
