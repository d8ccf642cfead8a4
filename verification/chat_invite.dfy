/**
 * The polymorphic supertype `ChatInviteExt` and its three variants
 * chatInviteAlready, chatInvite and chatInvitePeek.
 *
 * All three variants keep their fields in one storage record, `ChatInviteExt`.
 * A variant view (`TLChatInvite`, ...) holds that record; in the source it holds a
 * pointer to it, so a write through any view is a write to the shared storage.
 * Here a view carries the storage by value, a setter returns the view over the
 * updated storage, and `ToChatInviteExt` hands the storage back.
 */
module ChatInvite {
  import opened Wire

  const PredicateChatInviteAlready := "chatInviteAlready"
  const PredicateChatInvite := "chatInvite"
  const PredicateChatInvitePeek := "chatInvitePeek"

  const TagChatInviteAlready := 0xa40e7d5e
  const TagChatInvite := 0xdb75d1a7
  const TagChatInvitePeek := 0xace3e26e

  /** The shared storage. `None` stands for a nil pointer or a nil slice. */
  datatype ChatInviteExt = ChatInviteExt(
    predicateName: string,
    constructorId: int32,
    chat: Option<External>,
    requestNeeded: bool,
    title: string,
    about: Option<string>,
    photo: Option<External>,
    participantsCount: int32,
    participants: Option<seq<int64>>,
    expires: int32)

  /** `&ChatInviteExt{}` */
  const EmptyChatInviteExt := ChatInviteExt("", 0, None, false, "", None, None, 0, None, 0)

  predicate IsChatInvitePredicate(p: string)
  {
    p == PredicateChatInviteAlready || p == PredicateChatInvite || p == PredicateChatInvitePeek
  }

  predicate IsChatInviteTag(t: int)
  {
    t == TagChatInviteAlready || t == TagChatInvite || t == TagChatInvitePeek
  }

  function TagOfPredicate(p: string): int
    requires IsChatInvitePredicate(p)
  {
    if p == PredicateChatInviteAlready then TagChatInviteAlready
    else if p == PredicateChatInvite then TagChatInvite
    else TagChatInvitePeek
  }

  function PredicateOfTag(t: int): string
    requires IsChatInviteTag(t)
  {
    if t == TagChatInviteAlready then PredicateChatInviteAlready
    else if t == TagChatInvite then PredicateChatInvite
    else PredicateChatInvitePeek
  }

  /** The tags and the predicate names of the three variants correspond one to one. */
  lemma TagsMatchPredicates(p: string, t: int)
    ensures IsChatInvitePredicate(p) ==> IsChatInviteTag(TagOfPredicate(p)) && PredicateOfTag(TagOfPredicate(p)) == p
    ensures IsChatInviteTag(t) ==> IsChatInvitePredicate(PredicateOfTag(t)) && TagOfPredicate(PredicateOfTag(t)) == t
  {
  }

  /** Two storages agree on everything but the cached predicate name. */
  predicate SamePayload(a: ChatInviteExt, b: ChatInviteExt)
  {
    a.(predicateName := "") == b.(predicateName := "")
  }

  // ---------------------------------------------------------------------------
  // Variant views

  datatype TLChatInviteAlready = TLChatInviteAlready(data2: ChatInviteExt)
  {
    /** `m.SetChat(v)`: the view's chat reads `v`; nothing else of the storage changes. */
    function SetChat(v: Option<External>): (r: TLChatInviteAlready)
      ensures r.data2.chat == v
      ensures r.data2.(chat := data2.chat) == data2
    {
      TLChatInviteAlready(data2.(chat := v))
    }
  }

  datatype TLChatInvite = TLChatInvite(data2: ChatInviteExt)
  {
    /** `m.SetRequestNeeded(v)`: the view's requestNeeded reads `v`; nothing else of the storage changes. */
    function SetRequestNeeded(v: bool): (r: TLChatInvite)
      ensures r.data2.requestNeeded == v
      ensures r.data2.(requestNeeded := data2.requestNeeded) == data2
    {
      TLChatInvite(data2.(requestNeeded := v))
    }

    /** `m.SetTitle(v)`: the view's title reads `v`; nothing else of the storage changes. */
    function SetTitle(v: string): (r: TLChatInvite)
      ensures r.data2.title == v
      ensures r.data2.(title := data2.title) == data2
    {
      TLChatInvite(data2.(title := v))
    }

    /** `m.SetAbout(v)`: the view's about reads `v`; nothing else of the storage changes. */
    function SetAbout(v: Option<string>): (r: TLChatInvite)
      ensures r.data2.about == v
      ensures r.data2.(about := data2.about) == data2
    {
      TLChatInvite(data2.(about := v))
    }

    /** `m.SetPhoto(v)`: the view's photo reads `v`; nothing else of the storage changes. */
    function SetPhoto(v: Option<External>): (r: TLChatInvite)
      ensures r.data2.photo == v
      ensures r.data2.(photo := data2.photo) == data2
    {
      TLChatInvite(data2.(photo := v))
    }

    /** `m.SetParticipantsCount(v)`: the view's participantsCount reads `v`; nothing else of the storage changes. */
    function SetParticipantsCount(v: int32): (r: TLChatInvite)
      ensures r.data2.participantsCount == v
      ensures r.data2.(participantsCount := data2.participantsCount) == data2
    {
      TLChatInvite(data2.(participantsCount := v))
    }

    /** `m.SetParticipants(v)`: the view's participants reads `v`; nothing else of the storage changes. */
    function SetParticipants(v: Option<seq<int64>>): (r: TLChatInvite)
      ensures r.data2.participants == v
      ensures r.data2.(participants := data2.participants) == data2
    {
      TLChatInvite(data2.(participants := v))
    }
  }

  datatype TLChatInvitePeek = TLChatInvitePeek(data2: ChatInviteExt)
  {
    /** `m.SetChat(v)`: the view's chat reads `v`; nothing else of the storage changes. */
    function SetChat(v: Option<External>): (r: TLChatInvitePeek)
      ensures r.data2.chat == v
      ensures r.data2.(chat := data2.chat) == data2
    {
      TLChatInvitePeek(data2.(chat := v))
    }

    /** `m.SetExpires(v)`: the view's expires reads `v`; nothing else of the storage changes. */
    function SetExpires(v: int32): (r: TLChatInvitePeek)
      ensures r.data2.expires == v
      ensures r.data2.(expires := data2.expires) == data2
    {
      TLChatInvitePeek(data2.(expires := v))
    }
  }

  /** `m.To_ChatInviteAlready()`: a view over `m` that also stamps the predicate name into `m`. */
  function ToChatInviteAlready(m: ChatInviteExt): (v: TLChatInviteAlready)
    ensures v.data2.predicateName == PredicateChatInviteAlready && SamePayload(v.data2, m)
  {
    TLChatInviteAlready(m.(predicateName := PredicateChatInviteAlready))
  }

  /** `m.To_ChatInvite()` */
  function ToChatInvite(m: ChatInviteExt): (v: TLChatInvite)
    ensures v.data2.predicateName == PredicateChatInvite && SamePayload(v.data2, m)
  {
    TLChatInvite(m.(predicateName := PredicateChatInvite))
  }

  /** `m.To_ChatInvitePeek()` */
  function ToChatInvitePeek(m: ChatInviteExt): (v: TLChatInvitePeek)
    ensures v.data2.predicateName == PredicateChatInvitePeek && SamePayload(v.data2, m)
  {
    TLChatInvitePeek(m.(predicateName := PredicateChatInvitePeek))
  }

  /** `MakeTLChatInviteAlready(data2)`: a view over `data2`, or over fresh storage when it is nil. */
  function MakeTLChatInviteAlready(data2: Option<ChatInviteExt>): (v: TLChatInviteAlready)
    ensures v.data2.predicateName == PredicateChatInviteAlready
    ensures SamePayload(v.data2, if data2.Some? then data2.value else EmptyChatInviteExt)
  {
    ToChatInviteAlready(if data2.Some? then data2.value else EmptyChatInviteExt)
  }

  /** `MakeTLChatInvite(data2)` */
  function MakeTLChatInvite(data2: Option<ChatInviteExt>): (v: TLChatInvite)
    ensures v.data2.predicateName == PredicateChatInvite
    ensures SamePayload(v.data2, if data2.Some? then data2.value else EmptyChatInviteExt)
  {
    ToChatInvite(if data2.Some? then data2.value else EmptyChatInviteExt)
  }

  /** `MakeTLChatInvitePeek(data2)` */
  function MakeTLChatInvitePeek(data2: Option<ChatInviteExt>): (v: TLChatInvitePeek)
    ensures v.data2.predicateName == PredicateChatInvitePeek
    ensures SamePayload(v.data2, if data2.Some? then data2.value else EmptyChatInviteExt)
  {
    ToChatInvitePeek(if data2.Some? then data2.value else EmptyChatInviteExt)
  }

  /** `v.To_ChatInviteExt()` for each view: the shared storage, stamped with the view's predicate. */
  function AlreadyToExt(v: TLChatInviteAlready): (m: ChatInviteExt)
    ensures m.predicateName == PredicateChatInviteAlready && SamePayload(m, v.data2)
  {
    v.data2.(predicateName := PredicateChatInviteAlready)
  }

  function InviteToExt(v: TLChatInvite): (m: ChatInviteExt)
    ensures m.predicateName == PredicateChatInvite && SamePayload(m, v.data2)
  {
    v.data2.(predicateName := PredicateChatInvite)
  }

  function PeekToExt(v: TLChatInvitePeek): (m: ChatInviteExt)
    ensures m.predicateName == PredicateChatInvitePeek && SamePayload(m, v.data2)
  {
    v.data2.(predicateName := PredicateChatInvitePeek)
  }

  /**
   * Storage handed from one view to another keeps the write: a field set through
   * the chatInvite view is seen by a peek view made over the storage handed back,
   * and the other way round, and nothing else of the record changes. Views here
   * are values, so this is the hand-over, not two live views sharing a pointer.
   */
  lemma WritesThroughViewsAreShared(m: ChatInviteExt, title: string, expires: int32)
    ensures var s := InviteToExt(ToChatInvite(m).SetTitle(title));
            var peek := MakeTLChatInvitePeek(Some(s));
            peek.data2.title == title && SamePayload(peek.data2, m.(title := title))
    ensures var s := PeekToExt(ToChatInvitePeek(m).SetExpires(expires));
            var invite := MakeTLChatInvite(Some(s));
            invite.data2.expires == expires && SamePayload(invite.data2, m.(expires := expires))
  {
  }

  // ---------------------------------------------------------------------------
  // chatInviteAlready

  /**
   * `TLChatInviteAlready.Encode(layer)`, where `clazz` is the tag the layer
   * assigns to chatInviteAlready: the tag and the chat, or nothing when the layer
   * assigns another tag. Encoding a nil chat is not modelled.
   */
  function EncodeChatInviteAlready(v: TLChatInviteAlready, clazz: int32): (out: seq<Token>)
    requires U32(clazz) == TagChatInviteAlready ==> v.data2.chat.Some?
    ensures |out| > 0 <==> U32(clazz) == TagChatInviteAlready
    ensures |out| > 0 ==> out[0] == TagWord(TagChatInviteAlready)
  {
    if U32(clazz) == TagChatInviteAlready then
      [TagWord(TagChatInviteAlready), Obj(MutableChat, v.data2.chat.value)]
    else
      []
  }

  /**
   * `TLChatInviteAlready.Decode`: dispatches on the constructor already stored, not
   * on the wire. With its own constructor it always installs a chat and touches
   * nothing else; with another one it reads nothing and fails.
   */
  function DecodeChatInviteAlready(v: TLChatInviteAlready, d: Decoder): (r: Decoded<TLChatInviteAlready>)
    ensures U32(v.data2.constructorId) != TagChatInviteAlready ==>
      r == Decoded(v, d, Some(InvalidConstructor(v.data2.constructorId)))
    ensures U32(v.data2.constructorId) == TagChatInviteAlready ==>
      r.err == GetError(r.cursor) && r.value.data2.chat.Some? && r.value.data2 == v.data2.(chat := r.value.data2.chat)
  {
    if U32(v.data2.constructorId) == TagChatInviteAlready then
      var chat := ReadObj(MutableChat, d);
      Decoded(v.SetChat(Some(chat.value)), chat.next, GetError(chat.next))
    else
      Decoded(v, d, Some(InvalidConstructor(v.data2.constructorId)))
  }

  // ---------------------------------------------------------------------------
  // chatInvite

  /** The flags word of chatInvite: bit 6 request_needed, bit 5 about, bit 4 participants. */
  function ChatInviteFlags(v: TLChatInvite): (f: nat)
    ensures f < 0x1_0000_0000
  {
    var f6 := SetBitIf(0, 6, v.data2.requestNeeded);
    var f5 := SetBitIf(f6, 5, v.data2.about.Some?);
    SetBitIf(f5, 4, v.data2.participants.Some?)
  }

  /** A flag bit is set exactly when its field is set or present; no other bit is ever set. */
  lemma ChatInviteFlagBits(v: TLChatInvite, k: nat)
    ensures BitOf(ChatInviteFlags(v), k) <==>
      (k == 6 && v.data2.requestNeeded) || (k == 5 && v.data2.about.Some?) || (k == 4 && v.data2.participants.Some?)
  {
    var f6 := SetBitIf(0, 6, v.data2.requestNeeded);
    var f5 := SetBitIf(f6, 5, v.data2.about.Some?);
    ZeroHasNoBit(k);
    SetBitIfBits(0, 6, v.data2.requestNeeded, k);
    SetBitIfBits(f6, 5, v.data2.about.Some?, k);
    SetBitIfBits(f5, 4, v.data2.participants.Some?, k);
  }

  /**
   * `TLChatInvite.Encode(layer)`: tag, flags, title, about if present, photo,
   * participants count, participants if present.
   */
  function EncodeChatInvite(v: TLChatInvite, clazz: int32): (out: seq<Token>)
    requires U32(clazz) == TagChatInvite ==> v.data2.photo.Some?
    ensures |out| > 0 <==> U32(clazz) == TagChatInvite
    ensures |out| > 0 ==> out[0] == TagWord(TagChatInvite)
    ensures |out| > 0 ==> |out| == 5 + (if v.data2.about.Some? then 1 else 0) + (if v.data2.participants.Some? then 1 else 0)
  {
    if U32(clazz) == TagChatInvite then
      [TagWord(TagChatInvite), Word(FlagsWord(ChatInviteFlags(v))), Str(v.data2.title)]
      + (if v.data2.about.Some? then [Str(v.data2.about.value)] else [])
      + [Obj(Photo, v.data2.photo.value), Word(v.data2.participantsCount)]
      + (if v.data2.participants.Some? then [LongVec(v.data2.participants.value)] else [])
    else
      []
  }

  /** The storage fields chatInvite does not own are the same in both records. */
  predicate SameOutsideChatInvite(a: ChatInviteExt, b: ChatInviteExt)
  {
    a.predicateName == b.predicateName && a.constructorId == b.constructorId
    && a.chat == b.chat && a.expires == b.expires
  }

  /** The reads of `TLChatInvite.Decode` after the flags word, given its three bits. */
  function DecodeChatInviteFields(v: TLChatInvite, requestNeeded: bool, hasAbout: bool, hasParticipants: bool, d: Decoder): (r: Decoded<TLChatInvite>)
  {
    var v1 := if requestNeeded then v.SetRequestNeeded(true) else v;
    var title := ReadString(d);
    var v2 := v1.SetTitle(title.value);
    var about := if hasAbout then ReadString(title.next) else Read("", title.next);
    var v3 := if hasAbout then v2.SetAbout(Some(about.value)) else v2;
    var photo := ReadObj(Photo, about.next);
    var v4 := v3.SetPhoto(Some(photo.value));
    var count := ReadInt(photo.next);
    var v5 := v4.SetParticipantsCount(count.value);
    var parts := if hasParticipants then ReadLongVec(count.next) else Read([], count.next);
    // `VectorLong` gives nil when the read fails, and nil is stored as absent.
    var v6 := if hasParticipants then v5.SetParticipants(if parts.next.fault then None else Some(parts.value)) else v5;
    Decoded(v6, parts.next, GetError(parts.next))
  }

  /**
   * `TLChatInvite.Decode`. A flag that is clear leaves its field as it was: a
   * request_needed or about set before the call survives it. Title, photo and
   * participants count are always assigned.
   */
  function DecodeChatInvite(v: TLChatInvite, d: Decoder): (r: Decoded<TLChatInvite>)
    ensures U32(v.data2.constructorId) != TagChatInvite ==>
      r == Decoded(v, d, Some(InvalidConstructor(v.data2.constructorId)))
    ensures U32(v.data2.constructorId) == TagChatInvite ==>
      && r.err == GetError(r.cursor)
      && SameOutsideChatInvite(r.value.data2, v.data2)
      && r.value.data2.photo.Some?
      && (v.data2.requestNeeded ==> r.value.data2.requestNeeded)
      && (v.data2.about.Some? ==> r.value.data2.about.Some?)
      && (v.data2.participants.Some? && !r.cursor.fault ==> r.value.data2.participants.Some?)
  {
    if U32(v.data2.constructorId) == TagChatInvite then
      var flags := ReadFlags(d);
      DecodeChatInviteFields(v, BitOf(flags.value, 6), BitOf(flags.value, 5), BitOf(flags.value, 4), flags.next)
    else
      Decoded(v, d, Some(InvalidConstructor(v.data2.constructorId)))
  }

  // ---------------------------------------------------------------------------
  // chatInvitePeek

  /** `TLChatInvitePeek.Encode(layer)`: tag, chat, expires. */
  function EncodeChatInvitePeek(v: TLChatInvitePeek, clazz: int32): (out: seq<Token>)
    requires U32(clazz) == TagChatInvitePeek ==> v.data2.chat.Some?
    ensures |out| > 0 <==> U32(clazz) == TagChatInvitePeek
    ensures |out| > 0 ==> out[0] == TagWord(TagChatInvitePeek)
  {
    if U32(clazz) == TagChatInvitePeek then
      [TagWord(TagChatInvitePeek), Obj(MutableChat, v.data2.chat.value), Word(v.data2.expires)]
    else
      []
  }

  /** `TLChatInvitePeek.Decode`: installs a chat and an expiry and touches nothing else. */
  function DecodeChatInvitePeek(v: TLChatInvitePeek, d: Decoder): (r: Decoded<TLChatInvitePeek>)
    ensures U32(v.data2.constructorId) != TagChatInvitePeek ==>
      r == Decoded(v, d, Some(InvalidConstructor(v.data2.constructorId)))
    ensures U32(v.data2.constructorId) == TagChatInvitePeek ==>
      && r.err == GetError(r.cursor) && r.value.data2.chat.Some?
      && r.value.data2 == v.data2.(chat := r.value.data2.chat, expires := r.value.data2.expires)
  {
    if U32(v.data2.constructorId) == TagChatInvitePeek then
      var chat := ReadObj(MutableChat, d);
      var v1 := v.SetChat(Some(chat.value));
      var expires := ReadInt(chat.next);
      Decoded(v1.SetExpires(expires.value), expires.next, GetError(expires.next))
    else
      Decoded(v, d, Some(InvalidConstructor(v.data2.constructorId)))
  }

  // ---------------------------------------------------------------------------
  // The supertype

  /**
   * What `EncodeChatInviteExt` needs to be defined: when the layer gives the
   * resolved variant its own tag, the embedded object that variant writes is
   * present.
   */
  predicate ChatInviteExtEncodable(m: ChatInviteExt, names: NameOf, classOf: ClassOf)
  {
    var p := ResolvePredicate(m.predicateName, m.constructorId, names);
    && (p == PredicateChatInviteAlready && U32(classOf(p)) == TagChatInviteAlready ==> m.chat.Some?)
    && (p == PredicateChatInvite && U32(classOf(p)) == TagChatInvite ==> m.photo.Some?)
    && (p == PredicateChatInvitePeek && U32(classOf(p)) == TagChatInvitePeek ==> m.chat.Some?)
  }

  /**
   * `ChatInviteExt.Encode(layer)`. The variant is chosen by predicate name (the
   * cached one, else the one registered for the constructor), never by the
   * constructor itself. An unresolved name encodes to nothing and leaves the
   * record alone; a resolved one is cached in the record.
   */
  function EncodeChatInviteExt(m: ChatInviteExt, names: NameOf, classOf: ClassOf): (r: Encoded<ChatInviteExt>)
    requires ChatInviteExtEncodable(m, names, classOf)
    ensures var p := ResolvePredicate(m.predicateName, m.constructorId, names);
      && (!IsChatInvitePredicate(p) ==> r == Encoded([], m))
      && (IsChatInvitePredicate(p) ==>
            && r.self == m.(predicateName := p)
            && (|r.out| > 0 <==> U32(classOf(p)) == TagOfPredicate(p))
            && (|r.out| > 0 ==> r.out[0] == TagWord(TagOfPredicate(p))))
  {
    var p := ResolvePredicate(m.predicateName, m.constructorId, names);
    if p == PredicateChatInviteAlready then
      var t := ToChatInviteAlready(m);
      Encoded(EncodeChatInviteAlready(t, classOf(p)), AlreadyToExt(t))
    else if p == PredicateChatInvite then
      var t := ToChatInvite(m);
      Encoded(EncodeChatInvite(t, classOf(p)), InviteToExt(t))
    else if p == PredicateChatInvitePeek then
      var t := ToChatInvitePeek(m);
      Encoded(EncodeChatInvitePeek(t, classOf(p)), PeekToExt(t))
    else
      Encoded([], m)
  }

  /**
   * `ChatInviteExt.Decode`. The tag read is stored as the constructor before it is
   * checked, so an unknown tag still overwrites the constructor. A known tag hands
   * the record to that variant's Decode, whose own error is dropped: the result is
   * the cursor's fault state.
   */
  function DecodeChatInviteExt(m: ChatInviteExt, d: Decoder): (r: Decoded<ChatInviteExt>)
    ensures r.value.constructorId == ReadInt(d).value
    ensures IsChatInviteTag(U32(r.value.constructorId)) ==>
      r.err == GetError(r.cursor) && r.value.predicateName == PredicateOfTag(U32(r.value.constructorId))
    ensures !IsChatInviteTag(U32(r.value.constructorId)) ==>
      r == Decoded(m.(constructorId := ReadInt(d).value), ReadInt(d).next, Some(UnknownConstructor(ReadInt(d).value)))
  {
    var tag := ReadInt(d);
    var m1 := m.(constructorId := tag.value);
    if U32(tag.value) == TagChatInviteAlready then
      var r := DecodeChatInviteAlready(MakeTLChatInviteAlready(Some(m1)), tag.next);
      Decoded(r.value.data2, r.cursor, GetError(r.cursor))
    else if U32(tag.value) == TagChatInvite then
      var r := DecodeChatInvite(MakeTLChatInvite(Some(m1)), tag.next);
      Decoded(r.value.data2, r.cursor, GetError(r.cursor))
    else if U32(tag.value) == TagChatInvitePeek then
      var r := DecodeChatInvitePeek(MakeTLChatInvitePeek(Some(m1)), tag.next);
      Decoded(r.value.data2, r.cursor, GetError(r.cursor))
    else
      Decoded(m1, tag.next, Some(UnknownConstructor(tag.value)))
  }

  /** Decode accepts exactly the three variant tags. */
  lemma DecodeAcceptsExactlyVariantTags(m: ChatInviteExt, w: int32, rest: seq<Token>)
    ensures DecodeChatInviteExt(m, Start([Word(w)] + rest)).err != Some(UnknownConstructor(w))
      <==> IsChatInviteTag(U32(w))
  {
  }

  /**
   * What decoding the encoding of `m` as variant `p` into fresh storage yields:
   * that variant's fields of `m`, its tag and predicate name, and zero for all else.
   */
  function Restored(m: ChatInviteExt, p: string): ChatInviteExt
    requires IsChatInvitePredicate(p)
  {
    var base := EmptyChatInviteExt.(predicateName := p, constructorId := S32(TagOfPredicate(p)));
    if p == PredicateChatInviteAlready then
      base.(chat := m.chat)
    else if p == PredicateChatInvite then
      base.(requestNeeded := m.requestNeeded, title := m.title, about := m.about, photo := m.photo,
            participantsCount := m.participantsCount, participants := m.participants)
    else
      base.(chat := m.chat, expires := m.expires)
  }

  /** The tokens `TLChatInvite.Encode` writes after the flags word, followed by `rest`. */
  function ChatInviteFieldTokens(x: ChatInviteExt, rest: seq<Token>): seq<Token>
    requires x.photo.Some?
  {
    var aboutPart := if x.about.Some? then [Str(x.about.value)] else [];
    var partsPart := if x.participants.Some? then [LongVec(x.participants.value)] else [];
    [Str(x.title)] + (aboutPart + ([Obj(Photo, x.photo.value)] + ([Word(x.participantsCount)] + (partsPart + rest))))
  }

  /** The field reads after the flags word undo the field writes that follow it. */
  lemma ChatInviteFieldsRoundTrip(v: TLChatInvite, target: TLChatInvite, rest: seq<Token>)
    requires v.data2.photo.Some?
    requires !target.data2.requestNeeded && target.data2.about.None? && target.data2.participants.None?
    ensures var r := DecodeChatInviteFields(target, v.data2.requestNeeded, v.data2.about.Some?, v.data2.participants.Some?,
        Start(ChatInviteFieldTokens(v.data2, rest)));
      && r.err.None? && r.cursor == Start(rest)
      && r.value.data2 == target.data2.(requestNeeded := v.data2.requestNeeded, title := v.data2.title,
           about := v.data2.about, photo := v.data2.photo, participantsCount := v.data2.participantsCount,
           participants := v.data2.participants)
  {
    var x := v.data2;
    var aboutPart: seq<Token> := if x.about.Some? then [Str(x.about.value)] else [];
    var partsPart: seq<Token> := if x.participants.Some? then [LongVec(x.participants.value)] else [];
    var t5 := partsPart + rest;
    var t4 := [Word(x.participantsCount)] + t5;
    var t3 := [Obj(Photo, x.photo.value)] + t4;
    var t2 := aboutPart + t3;
    var t1 := [Str(x.title)] + t2;
    assert t1 == ChatInviteFieldTokens(x, rest);
    var title := ReadString(Start(t1));
    assert title == Read(x.title, Start(t2));
    var about := if x.about.Some? then ReadString(Start(t2)) else Read("", Start(t2));
    assert about.next == Start(t3);
    var photo := ReadObj(Photo, Start(t3));
    assert photo == Read(x.photo.value, Start(t4));
    var count := ReadInt(Start(t4));
    assert count == Read(x.participantsCount, Start(t5));
    var parts := if x.participants.Some? then ReadLongVec(Start(t5)) else Read([], Start(t5));
    assert parts.next == Start(rest);
  }

  /**
   * A participants vector announced by bit 4 but missing from the input is
   * stored as absent, as the nil `VectorLong` returns, even over storage that
   * held one; the decode reports the fault.
   */
  lemma MissingParticipantsBecomeAbsent(v: TLChatInvite, title: string, photo: External, count: int32)
    requires U32(v.data2.constructorId) == TagChatInvite && v.data2.participants.Some?
    ensures var r := DecodeChatInvite(v, Start([Word(16), Str(title), Obj(Photo, photo), Word(count)]));
      && r.value.data2.participants.None? && r.err == Some(BufferFault)
      && r.value.data2.title == title && r.value.data2.photo == Some(photo) && r.value.data2.participantsCount == count
  {
    var fields := [Str(title), Obj(Photo, photo), Word(count)];
    assert ReadFlags(Start([Word(16)] + fields)) == Read(16, Start(fields));
    assert BitOf(16, 4) && !BitOf(16, 5) && !BitOf(16, 6);
    assert ReadString(Start(fields)).next == Start(fields[1..]);
    assert ReadObj(Photo, Start(fields[1..])).next == Start(fields[2..]);
  }

  /** What `TLChatInvite.Encode` writes after its tag. */
  lemma ChatInviteEncoding(v: TLChatInvite, rest: seq<Token>)
    requires v.data2.photo.Some?
    ensures EncodeChatInvite(v, S32(TagChatInvite))[1..] + rest == [Word(FlagsWord(ChatInviteFlags(v)))] + ChatInviteFieldTokens(v.data2, rest)
  {
    var x := v.data2;
    var aboutPart: seq<Token> := if x.about.Some? then [Str(x.about.value)] else [];
    var partsPart: seq<Token> := if x.participants.Some? then [LongVec(x.participants.value)] else [];
    var out := EncodeChatInvite(v, S32(TagChatInvite));
    assert out == [TagWord(TagChatInvite), Word(FlagsWord(ChatInviteFlags(v))), Str(x.title)] + aboutPart
      + [Obj(Photo, x.photo.value), Word(x.participantsCount)] + partsPart;
  }

  lemma ChatInviteRoundTrip(v: TLChatInvite, target: TLChatInvite, rest: seq<Token>)
    requires v.data2.photo.Some?
    requires U32(target.data2.constructorId) == TagChatInvite
    requires !target.data2.requestNeeded && target.data2.about.None? && target.data2.participants.None?
    ensures var r := DecodeChatInvite(target, Start(EncodeChatInvite(v, S32(TagChatInvite))[1..] + rest));
      && r.err.None? && r.cursor == Start(rest)
      && r.value.data2 == target.data2.(requestNeeded := v.data2.requestNeeded, title := v.data2.title,
           about := v.data2.about, photo := v.data2.photo, participantsCount := v.data2.participantsCount,
           participants := v.data2.participants)
  {
    var f := ChatInviteFlags(v);
    ChatInviteFlagBits(v, 6);
    ChatInviteFlagBits(v, 5);
    ChatInviteFlagBits(v, 4);
    ChatInviteEncoding(v, rest);
    var fields := ChatInviteFieldTokens(v.data2, rest);
    assert ReadFlags(Start([Word(FlagsWord(f))] + fields)) == Read(f, Start(fields));
    ChatInviteFieldsRoundTrip(v, target, rest);
  }

  /**
   * Encoding a record as any variant and decoding the output into fresh storage
   * restores exactly that variant's fields, consumes exactly the encoding, and
   * reports no error.
   */
  lemma ChatInviteExtRoundTrip(m: ChatInviteExt, names: NameOf, classOf: ClassOf, rest: seq<Token>)
    requires ChatInviteExtEncodable(m, names, classOf)
    requires var p := ResolvePredicate(m.predicateName, m.constructorId, names);
      IsChatInvitePredicate(p) && U32(classOf(p)) == TagOfPredicate(p)
    ensures var p := ResolvePredicate(m.predicateName, m.constructorId, names);
      DecodeChatInviteExt(EmptyChatInviteExt, Start(EncodeChatInviteExt(m, names, classOf).out + rest))
        == Decoded(Restored(m, p), Start(rest), None)
  {
    var p := ResolvePredicate(m.predicateName, m.constructorId, names);
    var out := EncodeChatInviteExt(m, names, classOf).out;
    var d := Start(out + rest);
    var tag := S32(TagOfPredicate(p));
    assert ReadInt(d) == Read(tag, Start(out[1..] + rest)) by {
      assert (out + rest)[1..] == out[1..] + rest;
    }
    var m1 := EmptyChatInviteExt.(constructorId := tag);
    if p == PredicateChatInviteAlready {
      assert out == [TagWord(TagChatInviteAlready), Obj(MutableChat, m.chat.value)];
      assert out[1..] + rest == [Obj(MutableChat, m.chat.value)] + rest;
    } else if p == PredicateChatInvite {
      var v := ToChatInvite(m);
      assert out == EncodeChatInvite(v, classOf(p));
      U32Injective(classOf(p), S32(TagChatInvite));
      ChatInviteRoundTrip(v, MakeTLChatInvite(Some(m1)), rest);
    } else {
      assert out == [TagWord(TagChatInvitePeek), Obj(MutableChat, m.chat.value), Word(m.expires)];
      assert out[1..] + rest == [Obj(MutableChat, m.chat.value), Word(m.expires)] + rest;
    }
  }

  /**
   * Decoding into a reused record is not a round trip: an encoding made with
   * request_needed off leaves a request_needed that was on still on.
   */
  lemma ReusedRecordKeepsRequestNeeded(m: ChatInviteExt, names: NameOf, classOf: ClassOf, target: ChatInviteExt, rest: seq<Token>)
    requires ChatInviteExtEncodable(m, names, classOf)
    requires ResolvePredicate(m.predicateName, m.constructorId, names) == PredicateChatInvite
    requires U32(classOf(PredicateChatInvite)) == TagChatInvite
    requires !m.requestNeeded && target.requestNeeded
    ensures var r := DecodeChatInviteExt(target, Start(EncodeChatInviteExt(m, names, classOf).out + rest));
      r.value.requestNeeded && r.value.requestNeeded != m.requestNeeded
  {
    var out := EncodeChatInviteExt(m, names, classOf).out;
    assert out[0] == TagWord(TagChatInvite);
    assert (out + rest)[0] == out[0];
  }
}
