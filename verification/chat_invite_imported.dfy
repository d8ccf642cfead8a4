/**
 * The single-variant supertype `ChatInviteImported` (chatInviteImported: flags,
 * chat, requesters if flag bit 0). The requesters are written through their own
 * supertype's Encode, which stamps its predicate name into the nested record, and
 * read back through that supertype's Decode into a fresh record, whose error is
 * dropped.
 */
module Imported {
  import opened Wire
  import Requesters

  const PredicateChatInviteImported := "chatInviteImported"
  const TagChatInviteImported := 0x721051f6

  datatype ChatInviteImported = ChatInviteImported(
    predicateName: string,
    constructorId: int32,
    chat: Option<External>,
    requesters: Option<Requesters.RecentChatInviteRequesters>)

  /** `&ChatInviteImported{}` */
  const EmptyChatInviteImported := ChatInviteImported("", 0, None, None)

  datatype TLChatInviteImported = TLChatInviteImported(data2: ChatInviteImported)
  {
    /** `m.SetChat(v)`: the view's chat reads `v`; nothing else of the storage changes. */
    function SetChat(v: Option<External>): (r: TLChatInviteImported)
      ensures r.data2.chat == v
      ensures r.data2.(chat := data2.chat) == data2
    {
      TLChatInviteImported(data2.(chat := v))
    }

    /** `m.SetRequesters(v)`: the view's requesters reads `v`; nothing else of the storage changes. */
    function SetRequesters(v: Option<Requesters.RecentChatInviteRequesters>): (r: TLChatInviteImported)
      ensures r.data2.requesters == v
      ensures r.data2.(requesters := data2.requesters) == data2
    {
      TLChatInviteImported(data2.(requesters := v))
    }
  }

  /** `m.To_ChatInviteImported()` and `MakeTLChatInviteImported(m)` */
  function ToView(m: ChatInviteImported): (v: TLChatInviteImported)
    ensures v.data2 == m.(predicateName := PredicateChatInviteImported)
  {
    TLChatInviteImported(m.(predicateName := PredicateChatInviteImported))
  }

  /** The view's `To_ChatInviteImported()` */
  function ToStorage(v: TLChatInviteImported): (m: ChatInviteImported)
    ensures m == v.data2.(predicateName := PredicateChatInviteImported)
  {
    v.data2.(predicateName := PredicateChatInviteImported)
  }

  /** The flags word: bit 0 says the requesters are present. */
  function ImportedFlags(v: TLChatInviteImported): (f: nat)
    ensures f < 0x1_0000_0000
  {
    SetBitIf(0, 0, v.data2.requesters.Some?)
  }

  lemma ImportedFlagBits(v: TLChatInviteImported, k: nat)
    ensures BitOf(ImportedFlags(v), k) <==> k == 0 && v.data2.requesters.Some?
  {
    ZeroHasNoBit(k);
    SetBitIfBits(0, 0, v.data2.requesters.Some?, k);
  }

  /**
   * `TLChatInviteImported.Encode(layer)`: tag, flags, chat, then the requesters
   * through their supertype when present. The result carries the view after the
   * nested encode stamped the requesters' predicate name.
   */
  function EncodeView(v: TLChatInviteImported, clazz: int32, names: NameOf, classOf: ClassOf): (r: Encoded<TLChatInviteImported>)
    requires U32(clazz) == TagChatInviteImported ==> v.data2.chat.Some?
    ensures U32(clazz) != TagChatInviteImported ==> r == Encoded([], v)
    ensures U32(clazz) == TagChatInviteImported ==>
      && |r.out| >= 3 && r.out[0] == TagWord(TagChatInviteImported)
      && r.self.data2.(requesters := v.data2.requesters) == v.data2
      && r.self.data2.requesters.Some? == v.data2.requesters.Some?
      && (v.data2.requesters.Some? ==>
            && r.self.data2.requesters.value == Requesters.Encode(v.data2.requesters.value, names, classOf).self
            && r.self.data2.requesters.value
                 == v.data2.requesters.value.(predicateName := r.self.data2.requesters.value.predicateName))
  {
    if U32(clazz) == TagChatInviteImported then
      var head := [TagWord(TagChatInviteImported), Word(FlagsWord(ImportedFlags(v))), Obj(MutableChat, v.data2.chat.value)];
      if v.data2.requesters.Some? then
        var inner := Requesters.Encode(v.data2.requesters.value, names, classOf);
        Encoded(head + inner.out, v.SetRequesters(Some(inner.self)))
      else
        Encoded(head, v)
    else
      Encoded([], v)
  }

  /**
   * `TLChatInviteImported.Decode`: chat is always installed; with flag bit 0 the
   * requesters are decoded into a fresh record, and an error of theirs that does
   * not fault the cursor (an unknown nested tag) goes unreported.
   */
  function DecodeView(v: TLChatInviteImported, d: Decoder): (r: Decoded<TLChatInviteImported>)
    ensures U32(v.data2.constructorId) != TagChatInviteImported ==>
      r == Decoded(v, d, Some(InvalidConstructor(v.data2.constructorId)))
    ensures U32(v.data2.constructorId) == TagChatInviteImported ==>
      && r.err == GetError(r.cursor)
      && r.value.data2.chat.Some?
      && r.value.data2.predicateName == v.data2.predicateName
      && r.value.data2.constructorId == v.data2.constructorId
      && (v.data2.requesters.Some? ==> r.value.data2.requesters.Some?)
  {
    if U32(v.data2.constructorId) == TagChatInviteImported then
      var flags := ReadFlags(d);
      var chat := ReadObj(MutableChat, flags.next);
      var v1 := v.SetChat(Some(chat.value));
      if BitOf(flags.value, 0) then
        var inner := Requesters.Decode(Requesters.EmptyRecentChatInviteRequesters, chat.next);
        Decoded(v1.SetRequesters(Some(inner.value)), inner.cursor, GetError(inner.cursor))
      else
        Decoded(v1, chat.next, GetError(chat.next))
    else
      Decoded(v, d, Some(InvalidConstructor(v.data2.constructorId)))
  }

  /** `ChatInviteImported.Encode(layer)` */
  function Encode(m: ChatInviteImported, names: NameOf, classOf: ClassOf): (r: Encoded<ChatInviteImported>)
    requires (ResolvePredicate(m.predicateName, m.constructorId, names) == PredicateChatInviteImported
      && U32(classOf(PredicateChatInviteImported)) == TagChatInviteImported) ==> m.chat.Some?
    ensures var p := ResolvePredicate(m.predicateName, m.constructorId, names);
      && (p != PredicateChatInviteImported ==> r == Encoded([], m))
      && (p == PredicateChatInviteImported ==>
            && r.self.predicateName == p
            && r.self.(predicateName := m.predicateName, requesters := m.requesters) == m
            && r.self.requesters.Some? == m.requesters.Some?
            && (m.requesters.Some? ==>
                  r.self.requesters.value == m.requesters.value.(predicateName := r.self.requesters.value.predicateName))
            && (|r.out| > 0 <==> U32(classOf(p)) == TagChatInviteImported))
  {
    var p := ResolvePredicate(m.predicateName, m.constructorId, names);
    if p == PredicateChatInviteImported then
      var t := EncodeView(ToView(m), classOf(p), names, classOf);
      Encoded(t.out, ToStorage(t.self))
    else
      Encoded([], m)
  }

  /** `ChatInviteImported.Decode`: tag stored first, then the view's Decode, whose error is dropped. */
  function Decode(m: ChatInviteImported, d: Decoder): (r: Decoded<ChatInviteImported>)
    ensures r.value.constructorId == ReadInt(d).value
    ensures U32(r.value.constructorId) == TagChatInviteImported ==>
      r.err == GetError(r.cursor) && r.value.predicateName == PredicateChatInviteImported
    ensures U32(r.value.constructorId) != TagChatInviteImported ==>
      r == Decoded(m.(constructorId := ReadInt(d).value), ReadInt(d).next, Some(UnknownConstructor(ReadInt(d).value)))
  {
    var tag := ReadInt(d);
    var m1 := m.(constructorId := tag.value);
    if U32(tag.value) == TagChatInviteImported then
      var r := DecodeView(ToView(m1), tag.next);
      Decoded(r.value.data2, r.cursor, GetError(r.cursor))
    else
      Decoded(m1, tag.next, Some(UnknownConstructor(tag.value)))
  }

  /** The requesters can be written back: present ones resolve to their predicate and the layer gives it its tag. */
  predicate RequestersWritable(m: ChatInviteImported, names: NameOf, classOf: ClassOf)
  {
    m.requesters.Some? ==>
      && ResolvePredicate(m.requesters.value.predicateName, m.requesters.value.constructorId, names)
           == Requesters.PredicateRecentChatInviteRequesters
      && U32(classOf(Requesters.PredicateRecentChatInviteRequesters)) == Requesters.TagRecentChatInviteRequesters
  }

  /** What decoding the encoding of `m` into fresh storage yields. */
  function Restored(m: ChatInviteImported): ChatInviteImported
  {
    ChatInviteImported(PredicateChatInviteImported, S32(TagChatInviteImported), m.chat,
      if m.requesters.Some? then Some(Requesters.Restored(m.requesters.value)) else None)
  }

  /** The requesters part of the encoding of `m`. */
  function RequestersPart(m: ChatInviteImported, names: NameOf, classOf: ClassOf): seq<Token>
  {
    if m.requesters.Some? then Requesters.Encode(m.requesters.value, names, classOf).out else []
  }

  lemma EncodeShape(m: ChatInviteImported, names: NameOf, classOf: ClassOf)
    requires ResolvePredicate(m.predicateName, m.constructorId, names) == PredicateChatInviteImported
    requires U32(classOf(PredicateChatInviteImported)) == TagChatInviteImported
    requires m.chat.Some?
    ensures Encode(m, names, classOf).out
      == [TagWord(TagChatInviteImported), Word(FlagsWord(ImportedFlags(ToView(m)))), Obj(MutableChat, m.chat.value)]
         + RequestersPart(m, names, classOf)
  {
  }

  lemma DecodeShape(m: ChatInviteImported, names: NameOf, classOf: ClassOf, rest: seq<Token>)
    requires m.chat.Some? && RequestersWritable(m, names, classOf)
    ensures var t0 := [Word(FlagsWord(ImportedFlags(ToView(m)))), Obj(MutableChat, m.chat.value)] + RequestersPart(m, names, classOf) + rest;
      DecodeView(ToView(EmptyChatInviteImported.(constructorId := S32(TagChatInviteImported))), Start(t0))
        == Decoded(TLChatInviteImported(Restored(m)), Start(rest), None)
  {
    var f := ImportedFlags(ToView(m));
    ImportedFlagBits(ToView(m), 0);
    var t2 := RequestersPart(m, names, classOf) + rest;
    var t1 := [Obj(MutableChat, m.chat.value)] + t2;
    var t0 := [Word(FlagsWord(f))] + t1;
    assert t0 == [Word(FlagsWord(f)), Obj(MutableChat, m.chat.value)] + RequestersPart(m, names, classOf) + rest;
    assert ReadFlags(Start(t0)) == Read(f, Start(t1));
    assert ReadObj(MutableChat, Start(t1)) == Read(m.chat.value, Start(t2));
    if m.requesters.Some? {
      Requesters.RoundTrip(m.requesters.value, names, classOf, Requesters.EmptyRecentChatInviteRequesters, rest);
    } else {
      assert t2 == rest;
    }
  }

  /**
   * Encoding then decoding into fresh storage restores the chat and the
   * requesters, nested record included, and consumes exactly the encoding.
   */
  lemma RoundTrip(m: ChatInviteImported, names: NameOf, classOf: ClassOf, rest: seq<Token>)
    requires ResolvePredicate(m.predicateName, m.constructorId, names) == PredicateChatInviteImported
    requires U32(classOf(PredicateChatInviteImported)) == TagChatInviteImported
    requires m.chat.Some? && RequestersWritable(m, names, classOf)
    ensures Decode(EmptyChatInviteImported, Start(Encode(m, names, classOf).out + rest))
      == Decoded(Restored(m), Start(rest), None)
  {
    var out := Encode(m, names, classOf).out;
    EncodeShape(m, names, classOf);
    var t0 := [Word(FlagsWord(ImportedFlags(ToView(m)))), Obj(MutableChat, m.chat.value)] + RequestersPart(m, names, classOf) + rest;
    assert out + rest == [TagWord(TagChatInviteImported)] + t0;
    assert ReadInt(Start(out + rest)) == Read(S32(TagChatInviteImported), Start(t0));
    DecodeShape(m, names, classOf, rest);
  }

  /**
   * An unknown tag inside the requesters does not reach the caller: the outer
   * Decode reports success although the nested record was rejected.
   */
  lemma NestedUnknownTagIsSwallowed(chat: External, w: int32, rest: seq<Token>)
    requires U32(w) != Requesters.TagRecentChatInviteRequesters
    ensures var r := Decode(EmptyChatInviteImported,
        Start([TagWord(TagChatInviteImported), Word(FlagsWord(1)), Obj(MutableChat, chat), Word(w)] + rest));
      && r.err.None?
      && r.value.requesters == Some(Requesters.EmptyRecentChatInviteRequesters.(constructorId := w))
  {
    assert BitOf(1, 0);
    var t := [Word(w)] + rest;
    assert [TagWord(TagChatInviteImported), Word(FlagsWord(1)), Obj(MutableChat, chat), Word(w)] + rest
      == [TagWord(TagChatInviteImported)] + ([Word(FlagsWord(1))] + ([Obj(MutableChat, chat)] + t));
  }

  /**
   * Requesters that cannot be written still set flag bit 0: the encoding ends
   * after the chat, so the decoder takes whatever word follows as the nested
   * tag, swallows the "unknown constructor" and reports success with a record
   * other than the one written.
   */
  lemma UnwritableRequestersMisread(m: ChatInviteImported, names: NameOf, classOf: ClassOf, w: int32, rest: seq<Token>)
    requires ResolvePredicate(m.predicateName, m.constructorId, names) == PredicateChatInviteImported
    requires U32(classOf(PredicateChatInviteImported)) == TagChatInviteImported
    requires m.chat.Some? && m.requesters.Some? && !RequestersWritable(m, names, classOf)
    requires U32(w) != Requesters.TagRecentChatInviteRequesters
    ensures BitOf(ImportedFlags(ToView(m)), 0)
    ensures Encode(m, names, classOf).out
      == [TagWord(TagChatInviteImported), Word(FlagsWord(ImportedFlags(ToView(m)))), Obj(MutableChat, m.chat.value)]
    ensures var r := Decode(EmptyChatInviteImported, Start(Encode(m, names, classOf).out + [Word(w)] + rest));
      && r == Decoded(Restored(m).(requesters := Some(Requesters.EmptyRecentChatInviteRequesters.(constructorId := w))), Start(rest), None)
      && r.value != Restored(m)
  {
  }
}
