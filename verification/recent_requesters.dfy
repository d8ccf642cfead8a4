/**
 * The single-variant supertype `RecentChatInviteRequesters`
 * (recentChatInviteRequesters: requests_pending, recent_requesters).
 * A nil slice and an empty one write the same vector, so the list is a plain sequence.
 */
module Requesters {
  import opened Wire

  const PredicateRecentChatInviteRequesters := "recentChatInviteRequesters"
  const TagRecentChatInviteRequesters := 0x1c6e3c54

  datatype RecentChatInviteRequesters = RecentChatInviteRequesters(
    predicateName: string,
    constructorId: int32,
    requestsPending: int32,
    recentRequesters: seq<int64>)

  /** `&RecentChatInviteRequesters{}` */
  const EmptyRecentChatInviteRequesters := RecentChatInviteRequesters("", 0, 0, [])

  /** The view `TLRecentChatInviteRequesters` over the storage. */
  datatype TLRecentChatInviteRequesters = TLRecentChatInviteRequesters(data2: RecentChatInviteRequesters)
  {
    /** `m.SetRequestsPending(v)`: the view's requestsPending reads `v`; nothing else of the storage changes. */
    function SetRequestsPending(v: int32): (r: TLRecentChatInviteRequesters)
      ensures r.data2.requestsPending == v
      ensures r.data2.(requestsPending := data2.requestsPending) == data2
    {
      TLRecentChatInviteRequesters(data2.(requestsPending := v))
    }

    /** `m.SetRecentRequesters(v)`: the view's recentRequesters reads `v`; nothing else of the storage changes. */
    function SetRecentRequesters(v: seq<int64>): (r: TLRecentChatInviteRequesters)
      ensures r.data2.recentRequesters == v
      ensures r.data2.(recentRequesters := data2.recentRequesters) == data2
    {
      TLRecentChatInviteRequesters(data2.(recentRequesters := v))
    }
  }

  /** `m.To_RecentChatInviteRequesters()` and `MakeTLRecentChatInviteRequesters(m)`: the view, with the predicate name stamped in. */
  function ToView(m: RecentChatInviteRequesters): (v: TLRecentChatInviteRequesters)
    ensures v.data2 == m.(predicateName := PredicateRecentChatInviteRequesters)
  {
    TLRecentChatInviteRequesters(m.(predicateName := PredicateRecentChatInviteRequesters))
  }

  /** The view's `To_RecentChatInviteRequesters()`: the storage back, predicate name stamped. */
  function ToStorage(v: TLRecentChatInviteRequesters): (m: RecentChatInviteRequesters)
    ensures m == v.data2.(predicateName := PredicateRecentChatInviteRequesters)
  {
    v.data2.(predicateName := PredicateRecentChatInviteRequesters)
  }

  /** `TLRecentChatInviteRequesters.Encode(layer)`: tag, requests_pending, recent_requesters, or nothing under a foreign tag. */
  function EncodeView(v: TLRecentChatInviteRequesters, clazz: int32): (out: seq<Token>)
    ensures |out| > 0 <==> U32(clazz) == TagRecentChatInviteRequesters
    ensures |out| > 0 ==> out == [TagWord(TagRecentChatInviteRequesters)] + out[1..] && |out| == 3
  {
    if U32(clazz) == TagRecentChatInviteRequesters then
      [TagWord(TagRecentChatInviteRequesters), Word(v.data2.requestsPending), LongVec(v.data2.recentRequesters)]
    else
      []
  }

  /** `TLRecentChatInviteRequesters.Decode`: both fields are always assigned, so nothing of the old content survives. */
  function DecodeView(v: TLRecentChatInviteRequesters, d: Decoder): (r: Decoded<TLRecentChatInviteRequesters>)
    ensures U32(v.data2.constructorId) != TagRecentChatInviteRequesters ==>
      r == Decoded(v, d, Some(InvalidConstructor(v.data2.constructorId)))
    ensures U32(v.data2.constructorId) == TagRecentChatInviteRequesters ==>
      && r.err == GetError(r.cursor)
      && r.value.data2.predicateName == v.data2.predicateName
      && r.value.data2.constructorId == v.data2.constructorId
  {
    if U32(v.data2.constructorId) == TagRecentChatInviteRequesters then
      var pending := ReadInt(d);
      var v1 := v.SetRequestsPending(pending.value);
      var list := ReadLongVec(pending.next);
      Decoded(v1.SetRecentRequesters(list.value), list.next, GetError(list.next))
    else
      Decoded(v, d, Some(InvalidConstructor(v.data2.constructorId)))
  }

  /** `RecentChatInviteRequesters.Encode(layer)`: an unresolved predicate writes nothing and changes nothing. */
  function Encode(m: RecentChatInviteRequesters, names: NameOf, classOf: ClassOf): (r: Encoded<RecentChatInviteRequesters>)
    ensures var p := ResolvePredicate(m.predicateName, m.constructorId, names);
      && (p != PredicateRecentChatInviteRequesters ==> r == Encoded([], m))
      && (p == PredicateRecentChatInviteRequesters ==>
            r.self == m.(predicateName := p)
            && (|r.out| > 0 <==> U32(classOf(p)) == TagRecentChatInviteRequesters))
  {
    var p := ResolvePredicate(m.predicateName, m.constructorId, names);
    if p == PredicateRecentChatInviteRequesters then
      var t := ToView(m);
      Encoded(EncodeView(t, classOf(p)), ToStorage(t))
    else
      Encoded([], m)
  }

  /**
   * `RecentChatInviteRequesters.Decode`: the tag is stored before it is checked;
   * the view's error is dropped in favour of the cursor's.
   */
  function Decode(m: RecentChatInviteRequesters, d: Decoder): (r: Decoded<RecentChatInviteRequesters>)
    ensures r.value.constructorId == ReadInt(d).value
    ensures U32(r.value.constructorId) == TagRecentChatInviteRequesters ==>
      r.err == GetError(r.cursor) && r.value.predicateName == PredicateRecentChatInviteRequesters
    ensures U32(r.value.constructorId) != TagRecentChatInviteRequesters ==>
      r == Decoded(m.(constructorId := ReadInt(d).value), ReadInt(d).next, Some(UnknownConstructor(ReadInt(d).value)))
  {
    var tag := ReadInt(d);
    var m1 := m.(constructorId := tag.value);
    if U32(tag.value) == TagRecentChatInviteRequesters then
      var r := DecodeView(ToView(m1), tag.next);
      Decoded(r.value.data2, r.cursor, GetError(r.cursor))
    else
      Decoded(m1, tag.next, Some(UnknownConstructor(tag.value)))
  }

  /** The record `Decode` rebuilds from the encoding of `m`: its fields, its predicate and its tag. */
  function Restored(m: RecentChatInviteRequesters): RecentChatInviteRequesters
  {
    m.(predicateName := PredicateRecentChatInviteRequesters, constructorId := S32(TagRecentChatInviteRequesters))
  }

  /**
   * Encoding then decoding, into any record at all, rebuilds every field,
   * consumes exactly the encoding and reports no error.
   */
  lemma RoundTrip(m: RecentChatInviteRequesters, names: NameOf, classOf: ClassOf, target: RecentChatInviteRequesters, rest: seq<Token>)
    requires ResolvePredicate(m.predicateName, m.constructorId, names) == PredicateRecentChatInviteRequesters
    requires U32(classOf(PredicateRecentChatInviteRequesters)) == TagRecentChatInviteRequesters
    ensures Decode(target, Start(Encode(m, names, classOf).out + rest)) == Decoded(Restored(m), Start(rest), None)
  {
    var out := Encode(m, names, classOf).out;
    assert out == [TagWord(TagRecentChatInviteRequesters), Word(m.requestsPending), LongVec(m.recentRequesters)];
    assert out + rest == [TagWord(TagRecentChatInviteRequesters)] + ([Word(m.requestsPending)] + ([LongVec(m.recentRequesters)] + rest));
  }
}
