/**
 * The single-variant supertype `UserChatIdList` (userChatIdList: user_id,
 * chat_id_list). A nil slice and an empty one write the same vector, so the list
 * is a plain sequence.
 */
module UserChatIds {
  import opened Wire

  const PredicateUserChatIdList := "userChatIdList"
  const TagUserChatIdList := 0x50067224

  datatype UserChatIdList = UserChatIdList(
    predicateName: string,
    constructorId: int32,
    userId: int64,
    chatIdList: seq<int64>)

  /** `&UserChatIdList{}` */
  const EmptyUserChatIdList := UserChatIdList("", 0, 0, [])

  /** The view `TLUserChatIdList` over the storage. */
  datatype TLUserChatIdList = TLUserChatIdList(data2: UserChatIdList)
  {
    /** `m.SetUserId(v)`: the view's userId reads `v`; nothing else of the storage changes. */
    function SetUserId(v: int64): (r: TLUserChatIdList)
      ensures r.data2.userId == v
      ensures r.data2.(userId := data2.userId) == data2
    {
      TLUserChatIdList(data2.(userId := v))
    }

    /** `m.SetChatIdList(v)`: the view's chatIdList reads `v`; nothing else of the storage changes. */
    function SetChatIdList(v: seq<int64>): (r: TLUserChatIdList)
      ensures r.data2.chatIdList == v
      ensures r.data2.(chatIdList := data2.chatIdList) == data2
    {
      TLUserChatIdList(data2.(chatIdList := v))
    }
  }

  /** `m.To_UserChatIdList()` and `MakeTLUserChatIdList(m)`: the view, with the predicate name stamped in. */
  function ToView(m: UserChatIdList): (v: TLUserChatIdList)
    ensures v.data2 == m.(predicateName := PredicateUserChatIdList)
  {
    TLUserChatIdList(m.(predicateName := PredicateUserChatIdList))
  }

  /** The view's `To_UserChatIdList()`: the storage back, predicate name stamped. */
  function ToStorage(v: TLUserChatIdList): (m: UserChatIdList)
    ensures m == v.data2.(predicateName := PredicateUserChatIdList)
  {
    v.data2.(predicateName := PredicateUserChatIdList)
  }

  /** `TLUserChatIdList.Encode(layer)`: tag, user_id, chat_id_list, or nothing under a foreign tag. */
  function EncodeView(v: TLUserChatIdList, clazz: int32): (out: seq<Token>)
    ensures |out| > 0 <==> U32(clazz) == TagUserChatIdList
    ensures |out| > 0 ==> out == [TagWord(TagUserChatIdList)] + out[1..] && |out| == 3
  {
    if U32(clazz) == TagUserChatIdList then
      [TagWord(TagUserChatIdList), Long(v.data2.userId), LongVec(v.data2.chatIdList)]
    else
      []
  }

  /** `TLUserChatIdList.Decode`: both fields are always assigned, so nothing of the old content survives. */
  function DecodeView(v: TLUserChatIdList, d: Decoder): (r: Decoded<TLUserChatIdList>)
    ensures U32(v.data2.constructorId) != TagUserChatIdList ==>
      r == Decoded(v, d, Some(InvalidConstructor(v.data2.constructorId)))
    ensures U32(v.data2.constructorId) == TagUserChatIdList ==>
      && r.err == GetError(r.cursor)
      && r.value.data2.predicateName == v.data2.predicateName
      && r.value.data2.constructorId == v.data2.constructorId
  {
    if U32(v.data2.constructorId) == TagUserChatIdList then
      var userId := ReadLong(d);
      var v1 := v.SetUserId(userId.value);
      var list := ReadLongVec(userId.next);
      Decoded(v1.SetChatIdList(list.value), list.next, GetError(list.next))
    else
      Decoded(v, d, Some(InvalidConstructor(v.data2.constructorId)))
  }

  /** `UserChatIdList.Encode(layer)`: an unresolved predicate writes nothing and changes nothing. */
  function Encode(m: UserChatIdList, names: NameOf, classOf: ClassOf): (r: Encoded<UserChatIdList>)
    ensures var p := ResolvePredicate(m.predicateName, m.constructorId, names);
      && (p != PredicateUserChatIdList ==> r == Encoded([], m))
      && (p == PredicateUserChatIdList ==>
            r.self == m.(predicateName := p)
            && (|r.out| > 0 <==> U32(classOf(p)) == TagUserChatIdList))
  {
    var p := ResolvePredicate(m.predicateName, m.constructorId, names);
    if p == PredicateUserChatIdList then
      var t := ToView(m);
      Encoded(EncodeView(t, classOf(p)), ToStorage(t))
    else
      Encoded([], m)
  }

  /**
   * `UserChatIdList.Decode`: the tag is stored before it is checked;
   * the view's error is dropped in favour of the cursor's.
   */
  function Decode(m: UserChatIdList, d: Decoder): (r: Decoded<UserChatIdList>)
    ensures r.value.constructorId == ReadInt(d).value
    ensures U32(r.value.constructorId) == TagUserChatIdList ==>
      r.err == GetError(r.cursor) && r.value.predicateName == PredicateUserChatIdList
    ensures U32(r.value.constructorId) != TagUserChatIdList ==>
      r == Decoded(m.(constructorId := ReadInt(d).value), ReadInt(d).next, Some(UnknownConstructor(ReadInt(d).value)))
  {
    var tag := ReadInt(d);
    var m1 := m.(constructorId := tag.value);
    if U32(tag.value) == TagUserChatIdList then
      var r := DecodeView(ToView(m1), tag.next);
      Decoded(r.value.data2, r.cursor, GetError(r.cursor))
    else
      Decoded(m1, tag.next, Some(UnknownConstructor(tag.value)))
  }

  /** The record `Decode` rebuilds from the encoding of `m`: its fields, its predicate and its tag. */
  function Restored(m: UserChatIdList): UserChatIdList
  {
    m.(predicateName := PredicateUserChatIdList, constructorId := S32(TagUserChatIdList))
  }

  /**
   * Encoding then decoding, into any record at all, rebuilds every field,
   * consumes exactly the encoding and reports no error.
   */
  lemma RoundTrip(m: UserChatIdList, names: NameOf, classOf: ClassOf, target: UserChatIdList, rest: seq<Token>)
    requires ResolvePredicate(m.predicateName, m.constructorId, names) == PredicateUserChatIdList
    requires U32(classOf(PredicateUserChatIdList)) == TagUserChatIdList
    ensures Decode(target, Start(Encode(m, names, classOf).out + rest)) == Decoded(Restored(m), Start(rest), None)
  {
    var out := Encode(m, names, classOf).out;
    assert out == [TagWord(TagUserChatIdList), Long(m.userId), LongVec(m.chatIdList)];
    assert out + rest == [TagWord(TagUserChatIdList)] + ([Long(m.userId)] + ([LongVec(m.chatIdList)] + rest));
  }
}
