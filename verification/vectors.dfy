/**
 * The boxed vectors the chat service returns: `Vector_MutableChat`,
 * `Vector_ChatAdminWithInvites`, `Vector_ExportedChatInvite`,
 * `Vector_ChatInviteImporter`, `Vector_UserChatIdList` and `Vector_Long`.
 *
 * A boxed vector is the vector marker, the element count as a 32-bit word
 * (`int32(len)`, which wraps for 2^31 elements and more), then the elements.
 * Decoding reads the marker without checking it, reads the count, and decodes
 * that many fresh elements, ignoring each element's own error; a negative count
 * makes Go's `make` panic, modelled as the error `NegativeLength`.
 */
module Vectors {
  import opened Wire
  import UserChatIds

  /** `mtproto.CRC32_vector` */
  const TagVector := 0x1cb5c415

  // ---------------------------------------------------------------------------
  // Vectors of external records

  /** A vector of one external record kind, e.g. `Vector_MutableChat` with kind `MutableChat`. */
  datatype ObjVector = ObjVector(kind: ObjKind, datas: seq<External>)

  /** The elements as written: each record's own encoding. */
  function ObjTokens(kind: ObjKind, xs: seq<External>): (out: seq<Token>)
    ensures |out| == |xs|
    ensures forall i :: 0 <= i < |xs| ==> out[i] == Obj(kind, xs[i])
  {
    seq(|xs|, i requires 0 <= i < |xs| => Obj(kind, xs[i]))
  }

  /** `Vector_X.Encode(layer)` */
  function EncodeObjVector(v: ObjVector): (out: seq<Token>)
    ensures |out| == 2 + |v.datas|
    ensures out[0] == TagWord(TagVector) && out[1].Word? && U32(out[1].w) == |v.datas| % 0x1_0000_0000
    ensures forall i :: 0 <= i < |v.datas| ==> out[2 + i] == Obj(v.kind, v.datas[i])
  {
    [TagWord(TagVector), Word(Wrap32(|v.datas|))] + ObjTokens(v.kind, v.datas)
  }

  /** `n` element decodes in a row, each into a fresh record. */
  function ReadObjs(kind: ObjKind, n: nat, d: Decoder): (r: Read<seq<External>>)
    ensures |r.value| == n
    ensures d.fault ==> r.next == d
    decreases n
  {
    if n == 0 then Read([], d)
    else
      var x := ReadObj(kind, d);
      var xs := ReadObjs(kind, n - 1, x.next);
      Read([x.value] + xs.value, xs.next)
  }

  /** `Vector_X.Decode(dBuf)`: the vector `v` is replaced unless the count is negative. */
  function DecodeObjVector(v: ObjVector, d: Decoder): (r: Decoded<ObjVector>)
    ensures r.value.kind == v.kind
    ensures var count := ReadInt(ReadInt(d).next);
      && (count.value < 0 ==> r == Decoded(v, count.next, Some(NegativeLength(count.value))))
      && (count.value >= 0 ==> |r.value.datas| == count.value as int && r.err == GetError(r.cursor))
  {
    var marker := ReadInt(d);
    var count := ReadInt(marker.next);
    if count.value < 0 then
      Decoded(v, count.next, Some(NegativeLength(count.value)))
    else
      var elems := ReadObjs(v.kind, count.value as nat, count.next);
      Decoded(ObjVector(v.kind, elems.value), elems.next, GetError(elems.next))
  }

  /** Reading `|xs|` elements from their encoding takes them back. */
  lemma {:induction false} ReadObjsRoundTrip(kind: ObjKind, xs: seq<External>, rest: seq<Token>)
    ensures ReadObjs(kind, |xs|, Start(ObjTokens(kind, xs) + rest)) == Read(xs, Start(rest))
    decreases |xs|
  {
    if |xs| > 0 {
      var tail := ObjTokens(kind, xs[1..]) + rest;
      assert ObjTokens(kind, xs) + rest == [Obj(kind, xs[0])] + tail;
      ReadObjsRoundTrip(kind, xs[1..], rest);
      assert xs == [xs[0]] + xs[1..];
    }
  }

  /**
   * A vector of fewer than 2^31 elements decodes, into any vector of its kind,
   * as itself, consuming exactly its encoding.
   */
  lemma ObjVectorRoundTrip(v: ObjVector, target: ObjVector, rest: seq<Token>)
    requires |v.datas| < 0x8000_0000 && target.kind == v.kind
    ensures DecodeObjVector(target, Start(EncodeObjVector(v) + rest)) == Decoded(v, Start(rest), None)
  {
    var n := Wrap32(|v.datas|);
    var t2 := ObjTokens(v.kind, v.datas) + rest;
    var t1 := [Word(n)] + t2;
    assert EncodeObjVector(v) + rest == [TagWord(TagVector)] + t1;
    assert ReadInt(Start([TagWord(TagVector)] + t1)).next == Start(t1);
    assert ReadInt(Start(t1)) == Read(n, Start(t2));
    ReadObjsRoundTrip(v.kind, v.datas, rest);
  }

  /** From 2^31 elements to 2^32 the count wraps negative, and the encoding no longer decodes. */
  lemma ObjVectorCountWraps(v: ObjVector, target: ObjVector, rest: seq<Token>)
    requires 0x8000_0000 <= |v.datas| < 0x1_0000_0000
    ensures DecodeObjVector(target, Start(EncodeObjVector(v) + rest)).err == Some(NegativeLength(Wrap32(|v.datas|)))
    ensures Wrap32(|v.datas|) < 0
  {
    var n := Wrap32(|v.datas|);
    var t2 := ObjTokens(v.kind, v.datas) + rest;
    var t1 := [Word(n)] + t2;
    assert EncodeObjVector(v) + rest == [TagWord(TagVector)] + t1;
    assert ReadInt(Start([TagWord(TagVector)] + t1)).next == Start(t1);
    assert ReadInt(Start(t1)) == Read(n, Start(t2));
  }

  /** The marker is read but not checked: any word there decodes the same. */
  lemma MarkerIsNotChecked(v: ObjVector, w1: int32, w2: int32, rest: seq<Token>)
    ensures DecodeObjVector(v, Start([Word(w1)] + rest)) == DecodeObjVector(v, Start([Word(w2)] + rest))
  {
    assert ReadInt(Start([Word(w1)] + rest)).next == Start(rest);
    assert ReadInt(Start([Word(w2)] + rest)).next == Start(rest);
  }

  // ---------------------------------------------------------------------------
  // Vector_Long

  /** `Vector_Long.Encode(layer)`: the bare long vector. */
  function EncodeLongVector(datas: seq<int64>): (out: seq<Token>)
    ensures |out| == 1
    ensures DecodeLongVector(Start(out)) == Decoded(datas, Start([]), None)
  {
    [LongVec(datas)]
  }

  /** `Vector_Long.Decode(dBuf)`: the vector is always replaced, by nil when the read fails. */
  function DecodeLongVector(d: Decoder): (r: Decoded<seq<int64>>)
    ensures r.err == GetError(r.cursor)
    ensures r.cursor.fault ==> r.value == []
  {
    var x := ReadLongVec(d);
    Decoded(x.value, x.next, GetError(x.next))
  }

  lemma LongVectorRoundTrip(datas: seq<int64>, rest: seq<Token>)
    ensures DecodeLongVector(Start(EncodeLongVector(datas) + rest)) == Decoded(datas, Start(rest), None)
  {
  }

  // ---------------------------------------------------------------------------
  // Vector_UserChatIdList

  /** Each element's supertype `Encode`; each element caches its resolved predicate name. */
  function EncodeUserChatIdLists(datas: seq<UserChatIds.UserChatIdList>, names: NameOf, classOf: ClassOf)
    : (r: Encoded<seq<UserChatIds.UserChatIdList>>)
    ensures |r.self| == |datas|
    decreases |datas|
  {
    if |datas| == 0 then Encoded([], [])
    else
      var h := UserChatIds.Encode(datas[0], names, classOf);
      var t := EncodeUserChatIdLists(datas[1..], names, classOf);
      Encoded(h.out + t.out, [h.self] + t.self)
  }

  /** `Vector_UserChatIdList.Encode(layer)` */
  function EncodeUserChatIdVector(datas: seq<UserChatIds.UserChatIdList>, names: NameOf, classOf: ClassOf)
    : (r: Encoded<seq<UserChatIds.UserChatIdList>>)
    ensures |r.out| >= 2 && r.out[0] == TagWord(TagVector) && r.out[1].Word? && U32(r.out[1].w) == |datas| % 0x1_0000_0000
    ensures r.self == EncodeUserChatIdLists(datas, names, classOf).self
  {
    var elems := EncodeUserChatIdLists(datas, names, classOf);
    Encoded([TagWord(TagVector), Word(Wrap32(|datas|))] + elems.out, elems.self)
  }

  /** Element `i` of the encoded vector is element `i`'s own encoding, with its predicate cached. */
  lemma {:induction false} EncodeListsSelf(datas: seq<UserChatIds.UserChatIdList>, names: NameOf, classOf: ClassOf)
    ensures forall i :: 0 <= i < |datas| ==>
      EncodeUserChatIdLists(datas, names, classOf).self[i] == UserChatIds.Encode(datas[i], names, classOf).self
    decreases |datas|
  {
    if |datas| > 0 {
      EncodeListsSelf(datas[1..], names, classOf);
      forall i | 0 < i < |datas|
        ensures EncodeUserChatIdLists(datas, names, classOf).self[i] == UserChatIds.Encode(datas[i], names, classOf).self
      {
        assert datas[1..][i - 1] == datas[i];
      }
    }
  }

  /** `n` element decodes in a row, each into `new(UserChatIdList)`, their errors ignored. */
  function DecodeUserChatIdLists(n: nat, d: Decoder): (r: Read<seq<UserChatIds.UserChatIdList>>)
    ensures |r.value| == n
    decreases n
  {
    if n == 0 then Read([], d)
    else
      var h := UserChatIds.Decode(UserChatIds.EmptyUserChatIdList, d);
      var t := DecodeUserChatIdLists(n - 1, h.cursor);
      Read([h.value] + t.value, t.next)
  }

  /** `Vector_UserChatIdList.Decode(dBuf)`: `prior` is replaced unless the count is negative. */
  function DecodeUserChatIdVector(prior: seq<UserChatIds.UserChatIdList>, d: Decoder): (r: Decoded<seq<UserChatIds.UserChatIdList>>)
    ensures var count := ReadInt(ReadInt(d).next);
      && (count.value < 0 ==> r == Decoded(prior, count.next, Some(NegativeLength(count.value))))
      && (count.value >= 0 ==> |r.value| == count.value as int && r.err == GetError(r.cursor))
  {
    var marker := ReadInt(d);
    var count := ReadInt(marker.next);
    if count.value < 0 then
      Decoded(prior, count.next, Some(NegativeLength(count.value)))
    else
      var elems := DecodeUserChatIdLists(count.value as nat, count.next);
      Decoded(elems.value, elems.next, GetError(elems.next))
  }

  /** Every element resolves to `userChatIdList`, and the layer gives that predicate its tag. */
  predicate AllUserChatIdLists(datas: seq<UserChatIds.UserChatIdList>, names: NameOf, classOf: ClassOf)
  {
    && U32(classOf(UserChatIds.PredicateUserChatIdList)) == UserChatIds.TagUserChatIdList
    && forall i :: 0 <= i < |datas| ==>
         ResolvePredicate(datas[i].predicateName, datas[i].constructorId, names) == UserChatIds.PredicateUserChatIdList
  }

  /** What each element decodes back to. */
  function RestoredAll(datas: seq<UserChatIds.UserChatIdList>): (r: seq<UserChatIds.UserChatIdList>)
    ensures |r| == |datas|
    decreases |datas|
  {
    if |datas| == 0 then [] else [UserChatIds.Restored(datas[0])] + RestoredAll(datas[1..])
  }

  /** Element `i` of the decoded vector is element `i` of the written one, restored. */
  lemma {:induction false} RestoredAllAt(datas: seq<UserChatIds.UserChatIdList>, i: nat)
    requires i < |datas|
    ensures RestoredAll(datas)[i] == UserChatIds.Restored(datas[i])
    decreases i
  {
    if i > 0 {
      RestoredAllAt(datas[1..], i - 1);
    }
  }

  /** The encodings of the elements, one per element. */
  function ElementOuts(datas: seq<UserChatIds.UserChatIdList>, names: NameOf, classOf: ClassOf): (hs: seq<seq<Token>>)
    ensures |hs| == |datas|
    decreases |datas|
  {
    if |datas| == 0 then [] else [UserChatIds.Encode(datas[0], names, classOf).out] + ElementOuts(datas[1..], names, classOf)
  }

  lemma {:induction false} ElementOutsAt(datas: seq<UserChatIds.UserChatIdList>, names: NameOf, classOf: ClassOf, i: nat)
    requires i < |datas|
    ensures ElementOuts(datas, names, classOf)[i] == UserChatIds.Encode(datas[i], names, classOf).out
    decreases i
  {
    if i > 0 {
      ElementOutsAt(datas[1..], names, classOf, i - 1);
    }
  }

  /** The pieces of `hs` written one after the other. */
  function Concat(hs: seq<seq<Token>>): (out: seq<Token>)
    ensures |hs| > 0 ==> out == hs[0] + Concat(hs[1..])
    decreases |hs|
  {
    if |hs| == 0 then [] else hs[0] + Concat(hs[1..])
  }

  /** The list encoding is its elements' encodings, concatenated. */
  lemma {:induction false} EncodeListsConcat(datas: seq<UserChatIds.UserChatIdList>, names: NameOf, classOf: ClassOf)
    ensures EncodeUserChatIdLists(datas, names, classOf).out == Concat(ElementOuts(datas, names, classOf))
    decreases |datas|
  {
    if |datas| > 0 {
      EncodeListsConcat(datas[1..], names, classOf);
      assert ElementOuts(datas, names, classOf)[1..] == ElementOuts(datas[1..], names, classOf);
    }
  }

  /** Piece `h` decodes, whatever follows it, as `x`. */
  ghost predicate PieceDecodes(h: seq<Token>, x: UserChatIds.UserChatIdList)
  {
    forall s :: UserChatIds.Decode(UserChatIds.EmptyUserChatIdList, Start(h + s)) == Decoded(x, Start(s), None)
  }

  /**
   * `n` element decodes over `n` pieces, each of which decodes on its own
   * as the matching `xs` element, read back `xs`.
   */
  lemma {:induction false} DecodeConcat(hs: seq<seq<Token>>, xs: seq<UserChatIds.UserChatIdList>, rest: seq<Token>)
    requires |hs| == |xs|
    requires forall i :: 0 <= i < |hs| ==> PieceDecodes(hs[i], xs[i])
    ensures DecodeUserChatIdLists(|hs|, Start(Concat(hs) + rest)) == Read(xs, Start(rest))
    decreases |hs|
  {
    if |hs| > 0 {
      var tail := Concat(hs[1..]) + rest;
      AppendAssoc(hs[0], Concat(hs[1..]), rest);
      assert PieceDecodes(hs[0], xs[0]);
      ListsCons(|hs|, hs[0], tail, xs[0]);
      forall i | 0 <= i < |hs[1..]|
        ensures PieceDecodes(hs[1..][i], xs[1..][i])
      {
        assert hs[1..][i] == hs[i + 1] && xs[1..][i] == xs[i + 1];
      }
      DecodeConcat(hs[1..], xs[1..], rest);
      HeadTail(xs);
    }
  }

  /** One element decode in front of the rest of the list. */
  lemma ListsCons(n: nat, h: seq<Token>, tail: seq<Token>, x: UserChatIds.UserChatIdList)
    requires n > 0 && PieceDecodes(h, x)
    ensures DecodeUserChatIdLists(n, Start(h + tail))
      == Read([x] + DecodeUserChatIdLists(n - 1, Start(tail)).value, DecodeUserChatIdLists(n - 1, Start(tail)).next)
  {
    assert UserChatIds.Decode(UserChatIds.EmptyUserChatIdList, Start(h + tail)) == Decoded(x, Start(tail), None);
  }

  lemma AppendAssoc(a: seq<Token>, b: seq<Token>, c: seq<Token>)
    ensures (a + b) + c == a + (b + c)
  {
  }

  lemma HeadTail(xs: seq<UserChatIds.UserChatIdList>)
    requires |xs| > 0
    ensures xs == [xs[0]] + xs[1..]
  {
  }

  /** Encoding a list of encodable records, element by element, and decoding it back. */
  lemma UserChatIdListsRoundTrip(datas: seq<UserChatIds.UserChatIdList>, names: NameOf, classOf: ClassOf, rest: seq<Token>)
    requires AllUserChatIdLists(datas, names, classOf)
    ensures DecodeUserChatIdLists(|datas|, Start(EncodeUserChatIdLists(datas, names, classOf).out + rest))
      == Read(RestoredAll(datas), Start(rest))
  {
    var hs := ElementOuts(datas, names, classOf);
    var xs := RestoredAll(datas);
    EncodeListsConcat(datas, names, classOf);
    forall i | 0 <= i < |hs|
      ensures PieceDecodes(hs[i], xs[i])
    {
      ElementOutsAt(datas, names, classOf, i);
      RestoredAllAt(datas, i);
      forall s
        ensures UserChatIds.Decode(UserChatIds.EmptyUserChatIdList, Start(hs[i] + s)) == Decoded(xs[i], Start(s), None)
      {
        UserChatIds.RoundTrip(datas[i], names, classOf, UserChatIds.EmptyUserChatIdList, s);
      }
    }
    DecodeConcat(hs, xs, rest);
  }

  /**
   * A vector of fewer than 2^31 records, each encodable as `userChatIdList`,
   * decodes (into any old vector) as the records with their predicate and tag
   * filled in, consuming exactly its encoding.
   */
  lemma UserChatIdVectorRoundTrip(datas: seq<UserChatIds.UserChatIdList>, names: NameOf, classOf: ClassOf,
                                  prior: seq<UserChatIds.UserChatIdList>, rest: seq<Token>)
    requires |datas| < 0x8000_0000 && AllUserChatIdLists(datas, names, classOf)
    ensures DecodeUserChatIdVector(prior, Start(EncodeUserChatIdVector(datas, names, classOf).out + rest))
      == Decoded(RestoredAll(datas), Start(rest), None)
  {
    var lists := EncodeUserChatIdLists(datas, names, classOf).out;
    UserChatIdListsRoundTrip(datas, names, classOf, rest);
    DecodeVectorOfLists(Wrap32(|datas|), lists, rest, prior, RestoredAll(datas));
  }

  /** The marker and a non-negative count in front of `n` encoded elements. */
  lemma DecodeVectorOfLists(n: int32, lists: seq<Token>, rest: seq<Token>,
                            prior: seq<UserChatIds.UserChatIdList>, xs: seq<UserChatIds.UserChatIdList>)
    requires n >= 0 && DecodeUserChatIdLists(n as nat, Start(lists + rest)) == Read(xs, Start(rest))
    ensures DecodeUserChatIdVector(prior, Start([TagWord(TagVector), Word(n)] + lists + rest)) == Decoded(xs, Start(rest), None)
  {
    VectorHeader(n, lists, rest);
  }

  /** The marker and the count word are read off the front, leaving the elements. */
  lemma VectorHeader(n: int32, lists: seq<Token>, rest: seq<Token>)
    ensures ReadInt(ReadInt(Start([TagWord(TagVector), Word(n)] + lists + rest)).next) == Read(n, Start(lists + rest))
  {
    var s := lists + rest;
    assert [TagWord(TagVector), Word(n)] + lists + rest == [TagWord(TagVector)] + ([Word(n)] + s);
    ReadIntHead(S32(TagVector), [Word(n)] + s);
    ReadIntHead(n, s);
  }

  /**
   * An element that does not resolve to `userChatIdList`, or a layer without its
   * tag, is counted but writes nothing: a one-element vector of it is only the
   * marker and the count, and reading it back runs off the end of the buffer.
   */
  lemma UnwritableElementFaults(x: UserChatIds.UserChatIdList, names: NameOf, classOf: ClassOf,
                                prior: seq<UserChatIds.UserChatIdList>)
    requires !AllUserChatIdLists([x], names, classOf)
    ensures EncodeUserChatIdVector([x], names, classOf).out == [TagWord(TagVector), Word(1)]
    ensures DecodeUserChatIdVector(prior, Start(EncodeUserChatIdVector([x], names, classOf).out)).err == Some(BufferFault)
  {
    assert EncodeUserChatIdLists([x], names, classOf).out == UserChatIds.Encode(x, names, classOf).out;
    assert [TagWord(TagVector), Word(1)] == [TagWord(TagVector), Word(1)] + [] + [];
    VectorHeader(1, [], []);
  }
}
