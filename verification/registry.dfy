/**
 * The class registry of the chat service: `clazzIdRegisters2` maps each
 * constructor id (the signed reading of a TL tag) to a factory for a fresh object
 * of that constructor, `NewTLObjectByClassID` runs the factory for a known id and
 * `CheckClassID` says whether an id is known.
 *
 * The registry holds six data constructors (the three ChatInviteExt variants,
 * chatInviteImported, recentChatInviteRequesters, userChatIdList) and the 34
 * chat.* methods.
 */
module Registry {
  import opened Wire
  import ChatInvite
  import Imported
  import Requesters
  import UserChatIds
  import ChatMethods
  import Schema

  /** What a factory returns: a view over fresh data storage, or a fresh method record. */
  datatype TLObject =
    | ChatInviteAlreadyObj(already: ChatInvite.TLChatInviteAlready)
    | ChatInviteObj(invite: ChatInvite.TLChatInvite)
    | ChatInvitePeekObj(peek: ChatInvite.TLChatInvitePeek)
    | ChatInviteImportedObj(imported: Imported.TLChatInviteImported)
    | RecentChatInviteRequestersObj(requesters: Requesters.TLRecentChatInviteRequesters)
    | UserChatIdListObj(ids: UserChatIds.TLUserChatIdList)
    | MethodObj(record: ChatMethods.MethodRecord)

  /** One registry entry per constructor. */
  datatype Entry =
    | ChatInviteAlreadyEntry
    | ChatInviteEntry
    | ChatInvitePeekEntry
    | ChatInviteImportedEntry
    | RecentChatInviteRequestersEntry
    | UserChatIdListEntry
    | MethodEntry(m: ChatMethods.Method)

  /** The map key of each entry, as the registry writes it: a signed decimal literal. */
  function KeyOf(e: Entry): int32
  {
    match e
    case ChatInviteAlreadyEntry => -1542554274
    case ChatInviteEntry => -613035609
    case ChatInvitePeekEntry => -1394351506
    case ChatInviteImportedEntry => 1913672182
    case RecentChatInviteRequestersEntry => 476986452
    case UserChatIdListEntry => 1342599716
    case MethodEntry(m) =>
      match m
      case GetMutableChat => 741090770
      case GetChatListByIdList => -415173319
      case GetChatBySelfId => 1236736584
      case CreateChat2 => -465608273
      case DeleteChat => 1829891102
      case DeleteChatUser => 187109333
      case EditChatTitle => -1782210905
      case EditChatAbout => 1551072376
      case EditChatPhoto => 1170384488
      case EditChatAdmin => 419816940
      case EditChatDefaultBannedRights => 1513399943
      case AddChatUser => 2086511757
      case GetMutableChatByLink => -1570363509
      case ToggleNoForwards => -711644423
      case MigratedToChannel => 138390239
      case GetChatParticipantIdList => 848700073
      case GetUsersChatIdList => 792111948
      case GetMyChatList => -210408312
      case ExportChatInvite => -976256949
      case GetAdminsWithInvites => -756399662
      case GetExportedChatInvite => -571854256
      case GetExportedChatInvites => -1265690378
      case CheckChatInvite => 1938289292
      case ImportChatInvite => 1491493076
      case GetChatInviteImporters => -1740221057
      case DeleteExportedChatInvite => 1445103800
      case DeleteRevokedExportedChatInvites => -804101527
      case EditExportedChatInvite => -1348907914
      case SetChatAvailableReactions => -992966286
      case SetHistoryTTL => 1023107972
      case Search => 568333563
      case GetRecentChatInviteRequesters => -19132264
      case HideChatJoinRequests => 1051012305
      case ImportChatInvite2 => -589742657
  }

  /** The tag each entry's codec writes and checks, as an unsigned value. */
  function TagOfEntry(e: Entry): (t: int)
    ensures 0 <= t < 0x1_0000_0000
  {
    match e
    case ChatInviteAlreadyEntry => ChatInvite.TagChatInviteAlready
    case ChatInviteEntry => ChatInvite.TagChatInvite
    case ChatInvitePeekEntry => ChatInvite.TagChatInvitePeek
    case ChatInviteImportedEntry => Imported.TagChatInviteImported
    case RecentChatInviteRequestersEntry => Requesters.TagRecentChatInviteRequesters
    case UserChatIdListEntry => UserChatIds.TagUserChatIdList
    case MethodEntry(m) => ChatMethods.TagOf(m)
  }

  /** Every registry key is the signed reading of the tag its codec uses. */
  lemma KeyIsSignedTag(e: Entry)
    ensures U32(KeyOf(e)) == TagOfEntry(e)
  {
  }

  /** No method shares its tag with a data constructor. */
  lemma MethodTagIsNotDataTag(m: ChatMethods.Method)
    ensures ChatMethods.TagOf(m) != ChatInvite.TagChatInviteAlready
    ensures ChatMethods.TagOf(m) != ChatInvite.TagChatInvite
    ensures ChatMethods.TagOf(m) != ChatInvite.TagChatInvitePeek
    ensures ChatMethods.TagOf(m) != Imported.TagChatInviteImported
    ensures ChatMethods.TagOf(m) != Requesters.TagRecentChatInviteRequesters
    ensures ChatMethods.TagOf(m) != UserChatIds.TagUserChatIdList
  {
  }

  /** The map lookup `clazzIdRegisters2[classId]`. */
  function Lookup(k: int32): (e: Option<Entry>)
    ensures e.Some? ==> TagOfEntry(e.value) == U32(k)
  {
    var t := U32(k);
    if t == ChatInvite.TagChatInviteAlready then Some(ChatInviteAlreadyEntry)
    else if t == ChatInvite.TagChatInvite then Some(ChatInviteEntry)
    else if t == ChatInvite.TagChatInvitePeek then Some(ChatInvitePeekEntry)
    else if t == Imported.TagChatInviteImported then Some(ChatInviteImportedEntry)
    else if t == Requesters.TagRecentChatInviteRequesters then Some(RecentChatInviteRequestersEntry)
    else if t == UserChatIds.TagUserChatIdList then Some(UserChatIdListEntry)
    else
      match ChatMethods.MethodOfTag(t)
      case Some(m) => Some(MethodEntry(m))
      case None => None
  }

  /** The lookup finds exactly the entry registered under the key, and nothing for any other key. */
  lemma LookupFindsKey(k: int32, e: Entry)
    ensures Lookup(k) == Some(e) <==> KeyOf(e) == k
  {
    KeyIsSignedTag(e);
    if Lookup(k) == Some(e) {
      U32Injective(KeyOf(e), k);
    }
    if KeyOf(e) == k && e.MethodEntry? {
      MethodTagIsNotDataTag(e.m);
      ChatMethods.TagIdentifiesMethod(e.m);
    }
  }

  /** Distinct entries have distinct keys: the map literal has no duplicate key. */
  lemma KeysDistinct(e1: Entry, e2: Entry)
    ensures KeyOf(e1) == KeyOf(e2) <==> e1 == e2
  {
    LookupFindsKey(KeyOf(e1), e1);
    LookupFindsKey(KeyOf(e1), e2);
  }

  /** The constructor id an object carries. */
  function ConstructorOf(o: TLObject): int32
  {
    match o
    case ChatInviteAlreadyObj(v) => v.data2.constructorId
    case ChatInviteObj(v) => v.data2.constructorId
    case ChatInvitePeekObj(v) => v.data2.constructorId
    case ChatInviteImportedObj(v) => v.data2.constructorId
    case RecentChatInviteRequestersObj(v) => v.data2.constructorId
    case UserChatIdListObj(v) => v.data2.constructorId
    case MethodObj(r) => r.constructorId
  }

  /** The entry an object belongs to. */
  function EntryOf(o: TLObject): Entry
  {
    match o
    case ChatInviteAlreadyObj(_) => ChatInviteAlreadyEntry
    case ChatInviteObj(_) => ChatInviteEntry
    case ChatInvitePeekObj(_) => ChatInvitePeekEntry
    case ChatInviteImportedObj(_) => ChatInviteImportedEntry
    case RecentChatInviteRequestersObj(_) => RecentChatInviteRequestersEntry
    case UserChatIdListObj(_) => UserChatIdListEntry
    case MethodObj(r) => MethodEntry(r.rpc)
  }

  /**
   * The factory of an entry: `MakeTL*(nil)` with the storage's Constructor set
   * to the key, or `&TLChatX{Constructor: key}`.
   */
  function Fresh(e: Entry): (o: TLObject)
    ensures EntryOf(o) == e && ConstructorOf(o) == KeyOf(e)
  {
    var k := KeyOf(e);
    match e
    case ChatInviteAlreadyEntry =>
      ChatInviteAlreadyObj(ChatInvite.TLChatInviteAlready(ChatInvite.MakeTLChatInviteAlready(None).data2.(constructorId := k)))
    case ChatInviteEntry =>
      ChatInviteObj(ChatInvite.TLChatInvite(ChatInvite.MakeTLChatInvite(None).data2.(constructorId := k)))
    case ChatInvitePeekEntry =>
      ChatInvitePeekObj(ChatInvite.TLChatInvitePeek(ChatInvite.MakeTLChatInvitePeek(None).data2.(constructorId := k)))
    case ChatInviteImportedEntry =>
      ChatInviteImportedObj(Imported.TLChatInviteImported(Imported.ToView(Imported.EmptyChatInviteImported).data2.(constructorId := k)))
    case RecentChatInviteRequestersEntry =>
      RecentChatInviteRequestersObj(Requesters.TLRecentChatInviteRequesters(
        Requesters.ToView(Requesters.EmptyRecentChatInviteRequesters).data2.(constructorId := k)))
    case UserChatIdListEntry =>
      UserChatIdListObj(UserChatIds.TLUserChatIdList(UserChatIds.ToView(UserChatIds.EmptyUserChatIdList).data2.(constructorId := k)))
    case MethodEntry(m) =>
      MethodObj(ChatMethods.NewRecord(m, k))
  }

  /** `NewTLObjectByClassID(classId)`: a fresh object for a registered id, nil otherwise. */
  function NewTLObjectByClassID(k: int32): (o: Option<TLObject>)
    ensures o.Some? <==> exists e :: KeyOf(e) == k
    ensures o.Some? ==> ConstructorOf(o.value) == k && KeyOf(EntryOf(o.value)) == k
  {
    match Lookup(k)
    case Some(e) =>
      LookupFindsKey(k, e);
      Some(Fresh(e))
    case None =>
      assert forall e :: KeyOf(e) == k ==> Lookup(k) == Some(e) by {
        forall e | KeyOf(e) == k ensures Lookup(k) == Some(e) { LookupFindsKey(k, e); }
      }
      None
  }

  /** `CheckClassID(classId)`: whether the registry has the id. */
  function CheckClassID(k: int32): (ok: bool)
    ensures ok <==> NewTLObjectByClassID(k).Some?
    ensures ok <==> exists e :: KeyOf(e) == k
  {
    Lookup(k).Some?
  }

  /** The leading word of an encoded call is the record's constructor id. */
  lemma CallStartsWithKey(r: ChatMethods.MethodRecord, rest: seq<Token>)
    requires ChatMethods.Valid(r) && U32(r.constructorId) == ChatMethods.TagOf(r.rpc)
    requires Schema.Writable(ChatMethods.FieldsOf(r.rpc), r.values)
    ensures ReadInt(Start(ChatMethods.Encode(r) + rest)) == Read(r.constructorId, Start(ChatMethods.Encode(r)[1..] + rest))
  {
    var out := ChatMethods.Encode(r);
    U32Injective(S32(ChatMethods.TagOf(r.rpc)), r.constructorId);
    LeadingWord(out, rest, r.constructorId);
  }

  /** Reading a word from a token list that starts with it yields it and moves past it. */
  lemma LeadingWord(out: seq<Token>, rest: seq<Token>, w: int32)
    requires |out| > 0 && out[0] == Word(w)
    ensures ReadInt(Start(out + rest)) == Read(w, Start(out[1..] + rest))
  {
    assert (out + rest)[0] == Word(w);
    assert (out + rest)[1..] == out[1..] + rest;
  }

  /** The factory of a method's registered id is a fresh record of that method. */
  lemma MethodFactory(m: ChatMethods.Method, k: int32)
    requires U32(k) == ChatMethods.TagOf(m)
    ensures NewTLObjectByClassID(k) == Some(MethodObj(ChatMethods.NewRecord(m, k)))
  {
    KeyIsSignedTag(MethodEntry(m));
    U32Injective(KeyOf(MethodEntry(m)), k);
    LookupFindsKey(k, MethodEntry(m));
  }

  /**
   * The registry builds the right decoder for every method call: the leading word
   * of an encoded call is a registered id, its factory gives a fresh record of
   * that method, and decoding the rest of the call into it gives the call back.
   */
  lemma MethodDispatchRoundTrip(r: ChatMethods.MethodRecord, rest: seq<Token>)
    requires ChatMethods.Valid(r) && U32(r.constructorId) == ChatMethods.TagOf(r.rpc)
    requires Schema.Writable(ChatMethods.FieldsOf(r.rpc), r.values)
    requires r.rpc == ChatMethods.GetExportedChatInvites ==> ChatMethods.OffsetsAgree(r)
    ensures var head := ReadInt(Start(ChatMethods.Encode(r) + rest));
      && head.value == r.constructorId
      && NewTLObjectByClassID(head.value) == Some(MethodObj(ChatMethods.NewRecord(r.rpc, r.constructorId)))
      && ChatMethods.Decode(ChatMethods.NewRecord(r.rpc, r.constructorId), head.next) == Decoded(r, Start(rest), None)
  {
    CallStartsWithKey(r, rest);
    MethodFactory(r.rpc, r.constructorId);
    ChatMethods.RoundTrip(r, rest);
  }

  /**
   * The same for a userChatIdList object: the factory's view, decoding the fields
   * that follow the tag, holds the user id and the chat id list that were written.
   */
  lemma UserChatIdListDispatchRoundTrip(v: UserChatIds.TLUserChatIdList, rest: seq<Token>)
    ensures var head := ReadInt(Start(UserChatIds.EncodeView(v, S32(UserChatIds.TagUserChatIdList)) + rest));
      var o := NewTLObjectByClassID(head.value);
      && o.Some? && o.value.UserChatIdListObj?
      && var r := UserChatIds.DecodeView(o.value.ids, head.next);
         && r.err.None? && r.cursor == Start(rest)
         && r.value.data2 == UserChatIds.UserChatIdList(UserChatIds.PredicateUserChatIdList,
              S32(UserChatIds.TagUserChatIdList), v.data2.userId, v.data2.chatIdList)
  {
    var k := S32(UserChatIds.TagUserChatIdList);
    var out := UserChatIds.EncodeView(v, k);
    assert (out + rest)[0] == Word(k);
    assert (out + rest)[1..] == [Long(v.data2.userId), LongVec(v.data2.chatIdList)] + rest;
    KeyIsSignedTag(UserChatIdListEntry);
    U32Injective(KeyOf(UserChatIdListEntry), k);
    LookupFindsKey(k, UserChatIdListEntry);
  }
}
