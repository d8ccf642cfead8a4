/**
 * The layout every RPC method record of the chat service follows: the tag, a
 * flags word when any field is flag-gated, then the fields in declared order.
 *
 * A schema lists the fields in wire order. A plain field is always written and
 * always read. A flag field (a TL `true`) has only a bit and no payload. A gated
 * field (an optional `Int32Value`, `StringValue`, `Int64Value` or `Bool`) sets its
 * bit and is written only when present. Decoding a gated or flag field whose bit is
 * clear leaves the record's old value in place.
 */
module Schema {
  import opened Wire

  datatype Kind = KInt | KLong | KString | KLongVec | KStringVec | KObj(obj: ObjKind)

  datatype Field =
    | Plain(kind: Kind)
    | FlagTrue(bit: BitPos)
    | Gated(kind: Kind, bit: BitPos)

  /** A field value as one wire token carries it. */
  datatype Scalar =
    | IntV(i: int32)
    | LongV(l: int64)
    | StrV(s: string)
    | LongVecV(ls: seq<int64>)
    | StrVecV(ss: seq<string>)
    | ObjV(o: External)

  /** The value of one field of a record: a plain value, a nil nested object, a flag, or an optional value. */
  datatype Value = Val(s: Scalar) | NilObj | Flag(b: bool) | Opt(o: Option<Scalar>)

  predicate Fits(k: Kind, s: Scalar)
  {
    match k
    case KInt => s.IntV?
    case KLong => s.LongV?
    case KString => s.StrV?
    case KLongVec => s.LongVecV?
    case KStringVec => s.StrVecV?
    case KObj(_) => s.ObjV?
  }

  predicate FieldFits(f: Field, v: Value)
  {
    match f
    case Plain(k) => (v.Val? && Fits(k, v.s)) || (k.KObj? && v.NilObj?)
    case FlagTrue(_) => v.Flag?
    case Gated(k, _) => v.Opt? && (v.o.Some? ==> Fits(k, v.o.value))
  }

  /** The values line up with the fields, as the record's Go struct type guarantees. */
  predicate WellTyped(fields: seq<Field>, values: seq<Value>)
  {
    |values| == |fields| && forall i :: 0 <= i < |fields| ==> FieldFits(fields[i], values[i])
  }

  predicate IsFlagged(f: Field)
  {
    f.FlagTrue? || f.Gated?
  }

  /** The field sets its bit: a true flag, or a present optional value. */
  predicate Present(f: Field, v: Value)
  {
    (f.FlagTrue? && v == Flag(true)) || (f.Gated? && v.Opt? && v.o.Some?)
  }

  function ZeroScalar(k: Kind): (s: Scalar)
    ensures Fits(k, s)
  {
    match k
    case KInt => IntV(0)
    case KLong => LongV(0)
    case KString => StrV("")
    case KLongVec => LongVecV([])
    case KStringVec => StrVecV([])
    case KObj(_) => ObjV(External([]))
  }

  /** The Go zero value of a field: 0, "", nil slice, nil pointer, false. */
  function ZeroValue(f: Field): (v: Value)
    ensures FieldFits(f, v) && !Present(f, v)
  {
    match f
    case Plain(k) => if k.KObj? then NilObj else Val(ZeroScalar(k))
    case FlagTrue(_) => Flag(false)
    case Gated(_, _) => Opt(None)
  }

  function Zeros(fields: seq<Field>): (vs: seq<Value>)
    ensures |vs| == |fields| && WellTyped(fields, vs)
    ensures forall i :: 0 <= i < |fields| ==> vs[i] == ZeroValue(fields[i])
  {
    seq(|fields|, i requires 0 <= i < |fields| => ZeroValue(fields[i]))
  }

  predicate HasFlags(fields: seq<Field>)
  {
    exists i :: 0 <= i < |fields| && IsFlagged(fields[i])
  }

  /** `var flags uint32 = 0; if ... { flags |= 1 << bit }` over every flagged field. */
  function FlagsOf(fields: seq<Field>, values: seq<Value>): (n: nat)
    requires |values| == |fields|
    ensures n < 0x1_0000_0000
  {
    if |fields| == 0 then 0
    else if IsFlagged(fields[0]) then SetBitIf(FlagsOf(fields[1..], values[1..]), fields[0].bit, Present(fields[0], values[0]))
    else FlagsOf(fields[1..], values[1..])
  }

  /** Bit `j` of the flags word is set exactly when some field on bit `j` is present. */
  lemma {:induction false} FlagsOfBits(fields: seq<Field>, values: seq<Value>, j: nat)
    requires |values| == |fields|
    ensures BitOf(FlagsOf(fields, values), j) <==>
      exists i :: 0 <= i < |fields| && IsFlagged(fields[i]) && fields[i].bit == j && Present(fields[i], values[i])
    decreases |fields|
  {
    if |fields| == 0 {
      ZeroHasNoBit(j);
    } else {
      FlagsOfBits(fields[1..], values[1..], j);
      if IsFlagged(fields[0]) {
        SetBitIfBits(FlagsOf(fields[1..], values[1..]), fields[0].bit, Present(fields[0], values[0]), j);
      }
      if exists i :: 0 <= i < |fields| && IsFlagged(fields[i]) && fields[i].bit == j && Present(fields[i], values[i]) {
        var i :| 0 <= i < |fields| && IsFlagged(fields[i]) && fields[i].bit == j && Present(fields[i], values[i]);
        if i > 0 {
          assert fields[1..][i - 1] == fields[i] && values[1..][i - 1] == values[i];
        }
      }
      if exists i :: 0 <= i < |fields| - 1 && IsFlagged(fields[1..][i]) && fields[1..][i].bit == j && Present(fields[1..][i], values[1..][i]) {
        var i :| 0 <= i < |fields| - 1 && IsFlagged(fields[1..][i]) && fields[1..][i].bit == j && Present(fields[1..][i], values[1..][i]);
        assert fields[i + 1] == fields[1..][i] && values[i + 1] == values[1..][i];
      }
    }
  }

  /** No two flagged fields share a bit. */
  predicate BitsDistinct(fields: seq<Field>)
  {
    forall i, j :: 0 <= i < j < |fields| && IsFlagged(fields[i]) && IsFlagged(fields[j]) ==> fields[i].bit != fields[j].bit
  }

  /** Every flagged field's bit in `flags` says whether that field is present. */
  predicate FlagsFaithful(fields: seq<Field>, values: seq<Value>, flags: nat)
    requires |values| == |fields|
  {
    forall i :: 0 <= i < |fields| && IsFlagged(fields[i]) ==> (BitOf(flags, fields[i].bit) <==> Present(fields[i], values[i]))
  }

  /** With distinct bits, the flags word the encoder computes is faithful to every field. */
  lemma DistinctBitsAreFaithful(fields: seq<Field>, values: seq<Value>)
    requires |values| == |fields| && BitsDistinct(fields)
    ensures FlagsFaithful(fields, values, FlagsOf(fields, values))
  {
    forall i | 0 <= i < |fields| && IsFlagged(fields[i])
      ensures BitOf(FlagsOf(fields, values), fields[i].bit) <==> Present(fields[i], values[i])
    {
      FlagsOfBits(fields, values, fields[i].bit);
    }
  }

  // ---------------------------------------------------------------------------
  // Writing and reading fields

  /** The token `x.Int`, `x.Long`, `x.String`, `x.VectorLong`, `x.VectorString` or the nested `Encode` writes. */
  function ScalarToken(k: Kind, s: Scalar): Token
  {
    match s
    case IntV(i) => Word(i)
    case LongV(l) => Long(l)
    case StrV(t) => Str(t)
    case LongVecV(ls) => LongVec(ls)
    case StrVecV(ss) => StrVec(ss)
    case ObjV(o) => Obj(if k.KObj? then k.obj else MutableChat, o)
  }

  /** The read for a field of kind `k`. */
  function ReadScalar(k: Kind, d: Decoder): (r: Read<Scalar>)
    ensures Fits(k, r.value)
    ensures d.fault ==> r.next == d
  {
    match k
    case KInt => var x := ReadInt(d); Read(IntV(x.value), x.next)
    case KLong => var x := ReadLong(d); Read(LongV(x.value), x.next)
    case KString => var x := ReadString(d); Read(StrV(x.value), x.next)
    case KLongVec => var x := ReadLongVec(d); Read(LongVecV(x.value), x.next)
    case KStringVec => var x := ReadStringVec(d); Read(StrVecV(x.value), x.next)
    case KObj(o) => var x := ReadObj(o, d); Read(ObjV(x.value), x.next)
  }

  /** A read of kind `k` takes back the token a value of kind `k` was written as. */
  lemma ReadScalarToken(k: Kind, s: Scalar, rest: seq<Token>)
    requires Fits(k, s)
    ensures ReadScalar(k, Start([ScalarToken(k, s)] + rest)) == Read(s, Start(rest))
  {
  }

  /** Nested objects that are written unconditionally are not nil (the source would dereference them). */
  predicate Writable(fields: seq<Field>, values: seq<Value>)
    requires |values| == |fields|
  {
    forall i :: 0 <= i < |fields| && fields[i].Plain? ==> values[i].Val?
  }

  /** The tokens one field contributes. */
  function FieldTokens(f: Field, v: Value): seq<Token>
  {
    match f
    case Plain(k) => if v.Val? then [ScalarToken(k, v.s)] else []
    case FlagTrue(_) => []
    case Gated(k, _) => if v.Opt? && v.o.Some? then [ScalarToken(k, v.o.value)] else []
  }

  /** The fields after the flags word, in declared order. */
  function EncodeFields(fields: seq<Field>, values: seq<Value>): (out: seq<Token>)
    requires |values| == |fields|
    ensures |fields| > 0 ==> out == FieldTokens(fields[0], values[0]) + EncodeFields(fields[1..], values[1..])
  {
    if |fields| == 0 then [] else FieldTokens(fields[0], values[0]) + EncodeFields(fields[1..], values[1..])
  }

  /** Reads one field into its slot; `prior` is the record's value before the call. */
  function DecodeField(f: Field, flags: nat, prior: Value, d: Decoder): (r: Read<Value>)
    ensures FieldFits(f, prior) ==> FieldFits(f, r.value)
    ensures d.fault ==> r.next == d
    ensures IsFlagged(f) && !BitOf(flags, f.bit) ==> r == Read(prior, d)
  {
    match f
    case Plain(k) => var s := ReadScalar(k, d); Read(Val(s.value), s.next)
    case FlagTrue(b) => if BitOf(flags, b) then Read(Flag(true), d) else Read(prior, d)
    case Gated(k, b) =>
      if BitOf(flags, b) then var s := ReadScalar(k, d); Read(Opt(Some(s.value)), s.next)
      else Read(prior, d)
  }

  /**
   * The field reads after the flags word. A plain field is always assigned; a
   * flag or gated field whose bit is clear keeps its old value, and a flag that
   * was already true stays true.
   */
  function DecodeFields(fields: seq<Field>, flags: nat, olds: seq<Value>, d: Decoder): (r: Read<seq<Value>>)
    requires |olds| == |fields|
    ensures |r.value| == |fields|
    ensures WellTyped(fields, olds) ==> WellTyped(fields, r.value)
    ensures d.fault ==> r.next == d
    ensures forall i :: 0 <= i < |fields| && IsFlagged(fields[i]) && !BitOf(flags, fields[i].bit) ==> r.value[i] == olds[i]
    ensures forall i :: 0 <= i < |fields| && fields[i].FlagTrue? && olds[i] == Flag(true) ==> r.value[i] == Flag(true)
    decreases |fields|
  {
    if |fields| == 0 then Read([], d)
    else
      var head := DecodeField(fields[0], flags, olds[0], d);
      var tail := DecodeFields(fields[1..], flags, olds[1..], head.next);
      assert forall i :: 1 <= i < |fields| ==> fields[1..][i - 1] == fields[i] && olds[1..][i - 1] == olds[i];
      Read([head.value] + tail.value, tail.next)
  }

  /** `EncodeFields` from position `k` on: that field's tokens, then the rest. */
  lemma EncodeFieldsAt(fields: seq<Field>, values: seq<Value>, k: nat)
    requires |values| == |fields| && k < |fields|
    ensures EncodeFields(fields[k..], values[k..]) == FieldTokens(fields[k], values[k]) + EncodeFields(fields[k + 1..], values[k + 1..])
  {
    assert fields[k..][1..] == fields[k + 1..] && values[k..][1..] == values[k + 1..];
  }

  /** `DecodeFields` from position `k` on: that field's read, then the rest. */
  lemma DecodeFieldsAt(fields: seq<Field>, flags: nat, olds: seq<Value>, d: Decoder, k: nat)
    requires |olds| == |fields| && k < |fields|
    ensures DecodeFields(fields[k..], flags, olds[k..], d).next
      == DecodeFields(fields[k + 1..], flags, olds[k + 1..], DecodeField(fields[k], flags, olds[k], d).next).next
  {
    assert fields[k..][1..] == fields[k + 1..] && olds[k..][1..] == olds[k + 1..];
  }

  /** One field read back from what it wrote, given a faithful bit. */
  lemma FieldRoundTrip(f: Field, v: Value, flags: nat, tail: seq<Token>)
    requires FieldFits(f, v) && (f.Plain? ==> v.Val?)
    requires IsFlagged(f) ==> (BitOf(flags, f.bit) <==> Present(f, v))
    ensures DecodeField(f, flags, ZeroValue(f), Start(FieldTokens(f, v) + tail)) == Read(v, Start(tail))
  {
    match f {
      case Plain(k) =>
        assert FieldTokens(f, v) + tail == [ScalarToken(k, v.s)] + tail;
        ReadScalarToken(k, v.s, tail);
      case FlagTrue(_) =>
      case Gated(k, _) =>
        if v.o.Some? {
          assert FieldTokens(f, v) + tail == [ScalarToken(k, v.o.value)] + tail;
          ReadScalarToken(k, v.o.value, tail);
        }
    }
  }

  /** The round-trip conditions on a schema carry over to its tail. */
  lemma TailConditions(fields: seq<Field>, values: seq<Value>, flags: nat)
    requires |fields| > 0
    requires WellTyped(fields, values) && Writable(fields, values)
    requires FlagsFaithful(fields, values, flags)
    ensures WellTyped(fields[1..], values[1..]) && Writable(fields[1..], values[1..])
    ensures FlagsFaithful(fields[1..], values[1..], flags)
  {
    forall i | 0 <= i < |fields| - 1
      ensures fields[1..][i] == fields[i + 1] && values[1..][i] == values[i + 1]
    {
    }
  }

  /**
   * Reading back what `EncodeFields` wrote, into zero values, yields the written
   * values and stops exactly at the end of the encoding, provided the flags word
   * tells for every flagged field whether it is present.
   */
  lemma {:induction false} FieldsRoundTrip(fields: seq<Field>, values: seq<Value>, flags: nat, rest: seq<Token>)
    requires WellTyped(fields, values) && Writable(fields, values)
    requires FlagsFaithful(fields, values, flags)
    ensures DecodeFields(fields, flags, Zeros(fields), Start(EncodeFields(fields, values) + rest)) == Read(values, Start(rest))
    decreases |fields|
  {
    if |fields| > 0 {
      var tail := EncodeFields(fields[1..], values[1..]) + rest;
      assert EncodeFields(fields, values) + rest == FieldTokens(fields[0], values[0]) + tail;
      assert FieldFits(fields[0], values[0]);
      assert Zeros(fields)[0] == ZeroValue(fields[0]);
      FieldRoundTrip(fields[0], values[0], flags, tail);
      TailConditions(fields, values, flags);
      FieldsRoundTrip(fields[1..], values[1..], flags, rest);
      assert Zeros(fields)[1..] == Zeros(fields[1..]);
      assert values == [values[0]] + values[1..];
    }
  }

  // ---------------------------------------------------------------------------
  // The flags word and the fields together

  /** The flags word, written only when the schema has a flagged field. */
  function FlagsTokens(fields: seq<Field>, values: seq<Value>): seq<Token>
    requires |values| == |fields|
  {
    if HasFlags(fields) then [Word(FlagsWord(FlagsOf(fields, values)))] else []
  }

  /** What a record writes after its tag. */
  function EncodeBody(fields: seq<Field>, values: seq<Value>): seq<Token>
    requires |values| == |fields|
  {
    FlagsTokens(fields, values) + EncodeFields(fields, values)
  }

  /** What a record reads after its tag: the flags word when the schema has one, then the fields. */
  function DecodeBody(fields: seq<Field>, olds: seq<Value>, d: Decoder): (r: Read<seq<Value>>)
    requires |olds| == |fields|
    ensures |r.value| == |fields|
    ensures WellTyped(fields, olds) ==> WellTyped(fields, r.value)
    ensures d.fault ==> r.next == d
  {
    var flags := if HasFlags(fields) then ReadFlags(d) else Read(0, d);
    DecodeFields(fields, flags.value, olds, flags.next)
  }

  /** Without flagged fields any flags word is faithful. */
  lemma UnflaggedIsFaithful(fields: seq<Field>, values: seq<Value>, flags: nat)
    requires |values| == |fields| && !HasFlags(fields)
    ensures FlagsFaithful(fields, values, flags)
  {
  }

  /**
   * A record body reads back into zero values as the values it was written
   * from, when the flags word it carries is faithful.
   */
  lemma BodyRoundTrip(fields: seq<Field>, values: seq<Value>, rest: seq<Token>)
    requires WellTyped(fields, values) && Writable(fields, values)
    requires FlagsFaithful(fields, values, FlagsOf(fields, values))
    ensures DecodeBody(fields, Zeros(fields), Start(EncodeBody(fields, values) + rest)) == Read(values, Start(rest))
  {
    if HasFlags(fields) {
      FlaggedBodyRoundTrip(fields, values, rest);
    } else {
      UnflaggedBodyRoundTrip(fields, values, rest);
    }
  }

  lemma FlaggedBodyRoundTrip(fields: seq<Field>, values: seq<Value>, rest: seq<Token>)
    requires WellTyped(fields, values) && Writable(fields, values)
    requires HasFlags(fields) && FlagsFaithful(fields, values, FlagsOf(fields, values))
    ensures DecodeBody(fields, Zeros(fields), Start(EncodeBody(fields, values) + rest)) == Read(values, Start(rest))
  {
    var f := FlagsOf(fields, values);
    var tail := EncodeFields(fields, values) + rest;
    assert EncodeBody(fields, values) + rest == [Word(FlagsWord(f))] + tail;
    assert ReadFlags(Start([Word(FlagsWord(f))] + tail)) == Read(f, Start(tail));
    FieldsRoundTrip(fields, values, f, rest);
  }

  lemma UnflaggedBodyRoundTrip(fields: seq<Field>, values: seq<Value>, rest: seq<Token>)
    requires WellTyped(fields, values) && Writable(fields, values) && !HasFlags(fields)
    ensures DecodeBody(fields, Zeros(fields), Start(EncodeBody(fields, values) + rest)) == Read(values, Start(rest))
  {
    assert EncodeBody(fields, values) == EncodeFields(fields, values);
    UnflaggedIsFaithful(fields, values, 0);
    FieldsRoundTrip(fields, values, 0, rest);
  }
}
