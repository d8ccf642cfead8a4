/**
 * The cursor primitives of the TL binary wire, as the chat codec uses them.
 *
 * The byte-level writer and reader (`EncodeBuf` and `DecodeBuf` of the mtproto
 * library) are not part of this model. The wire is a sequence of tokens, one per
 * primitive write: a 32-bit word, a 64-bit integer, a string, a vector of 64-bit
 * integers, a vector of strings, or a whole object of a type the mtproto library
 * defines. A read consumes one token of the kind it expects. A read that finds no
 * token, or a token of another kind, sets the sticky fault and yields the zero
 * value without consuming anything; once the fault is set every later read yields
 * the zero value too. The fault is surfaced once, by `GetError`.
 */
module Wire {

  datatype Option<+T> = None | Some(value: T)

  newtype int32 = x: int | -0x8000_0000 <= x < 0x8000_0000
  newtype int64 = x: int | -0x8000_0000_0000_0000 <= x < 0x8000_0000_0000_0000

  /** Go's `uint32(i)`: the unsigned reading of the 32 bits of a signed word. */
  function U32(i: int32): (n: int)
    ensures 0 <= n < 0x1_0000_0000
    ensures i >= 0 <==> n < 0x8000_0000
  {
    if i < 0 then i as int + 0x1_0000_0000 else i as int
  }

  /** Go's `int32(u)` for a value of uint32 range: the signed reading of the same bits. */
  function S32(n: int): (i: int32)
    requires 0 <= n < 0x1_0000_0000
    ensures U32(i) == n
  {
    if n >= 0x8000_0000 then (n - 0x1_0000_0000) as int32 else n as int32
  }

  /** Two words with the same unsigned reading are the same word. */
  lemma U32Injective(a: int32, b: int32)
    requires U32(a) == U32(b)
    ensures a == b
  {
  }

  /** Go's `int32(n)` for a non-negative int such as a slice length: keeps the low 32 bits. */
  function Wrap32(n: nat): (i: int32)
    ensures n < 0x8000_0000 ==> i as int == n
    ensures U32(i) == n % 0x1_0000_0000
  {
    S32(n % 0x1_0000_0000)
  }

  // ---------------------------------------------------------------------------
  // Flags words. The source builds a flags word with `flags |= 1 << k` and tests
  // it with `flags & (1 << k) != 0`; here a flags word is its unsigned value and
  // both operations are stated arithmetically.

  /** A bit position of a 32-bit flags word. */
  type BitPos = k: nat | k < 32

  function Pow2(k: nat): (p: nat)
    ensures p >= 1
  {
    if k == 0 then 1 else 2 * Pow2(k - 1)
  }

  /** `n & (1 << k) != 0` */
  predicate BitOf(n: nat, k: nat)
  {
    if k == 0 then n % 2 == 1 else BitOf(n / 2, k - 1)
  }

  /** `n | (1 << k)` */
  function SetBit(n: nat, k: nat): nat
  {
    if BitOf(n, k) then n else n + Pow2(k)
  }

  lemma {:induction false} AddPow2Bit(n: nat, k: nat, j: nat)
    requires !BitOf(n, k)
    ensures BitOf(n + Pow2(k), j) <==> j == k || BitOf(n, j)
    decreases k, j
  {
    if k == 0 {
      if j > 0 {
        assert (n + 1) / 2 == n / 2;
      }
    } else {
      assert Pow2(k) == 2 * Pow2(k - 1);
      if j > 0 {
        assert (n + Pow2(k)) / 2 == n / 2 + Pow2(k - 1);
        AddPow2Bit(n / 2, k - 1, j - 1);
      }
    }
  }

  lemma {:induction false} AddPow2Bound(n: nat, k: nat, m: nat)
    requires k < m && n < Pow2(m) && !BitOf(n, k)
    ensures n + Pow2(k) < Pow2(m)
    decreases k
  {
    assert Pow2(m) == 2 * Pow2(m - 1);
    if k > 0 {
      assert Pow2(k) == 2 * Pow2(k - 1);
      AddPow2Bound(n / 2, k - 1, m - 1);
    }
  }

  /** Setting bit `k` turns on bit `k` and leaves every other bit as it was. */
  lemma SetBitBits(n: nat, k: nat, j: nat)
    ensures BitOf(SetBit(n, k), j) <==> j == k || BitOf(n, j)
  {
    if !BitOf(n, k) {
      AddPow2Bit(n, k, j);
    }
  }

  /** Setting a bit below 32 keeps a word inside 32 bits. */
  lemma SetBitInWord(n: nat, k: BitPos)
    ensures n < 0x1_0000_0000 ==> SetBit(n, k) < 0x1_0000_0000
  {
    assert Pow2(8) == 0x100;
    assert Pow2(16) == 0x1_0000;
    assert Pow2(24) == 0x100_0000;
    assert Pow2(32) == 0x1_0000_0000;
    if n < 0x1_0000_0000 && !BitOf(n, k) {
      AddPow2Bound(n, k, 32);
    }
  }

  lemma {:induction false} ZeroHasNoBit(j: nat)
    ensures !BitOf(0, j)
  {
    if j > 0 {
      ZeroHasNoBit(j - 1);
    }
  }

  /** The flags `dBuf.UInt()` reads from a word: its unsigned value. */
  function WordFlags(w: int32): nat
  {
    U32(w)
  }

  /** `if cond { n |= 1 << k }` */
  function SetBitIf(n: nat, k: BitPos, cond: bool): (r: nat)
    ensures n < 0x1_0000_0000 ==> r < 0x1_0000_0000
  {
    if cond then SetBitInWord(n, k); SetBit(n, k) else n
  }

  lemma SetBitIfBits(n: nat, k: BitPos, cond: bool, j: nat)
    ensures BitOf(SetBitIf(n, k, cond), j) <==> (cond && j == k) || BitOf(n, j)
  {
    if cond {
      SetBitBits(n, k, j);
    }
  }

  /** The word `x.UInt(flags)` writes. */
  function FlagsWord(f: nat): (w: int32)
    requires f < 0x1_0000_0000
    ensures WordFlags(w) == f
  {
    S32(f)
  }

  // ---------------------------------------------------------------------------
  // Tokens

  /** Object types defined in the mtproto library and embedded whole by this codec. */
  datatype ObjKind =
    | MutableChat
    | Photo
    | Bool
    | ChatBannedRights
    | ExportedChatInvite
    | ChatAdminWithInvites
    | ChatInviteImporter

  /** The content of an mtproto-library object; this model carries it whole and never looks inside. */
  datatype External = External(payload: seq<int>)

  datatype Token =
    | Word(w: int32)
    | Long(l: int64)
    | Str(s: string)
    | LongVec(ls: seq<int64>)
    | StrVec(ss: seq<string>)
    | Obj(kind: ObjKind, o: External)

  /** The word `x.UInt(tag)` writes for a constructor tag given in hex. */
  function TagWord(tag: int): Token
    requires 0 <= tag < 0x1_0000_0000
  {
    Word(S32(tag))
  }

  /** The output of an `Encode` call and the encoded object afterwards: encoding a
      supertype caches the resolved predicate name in it. */
  datatype Encoded<T> = Encoded(out: seq<Token>, self: T)

  // ---------------------------------------------------------------------------
  // Predicate resolution. Both tables are generated into other files of the
  // package and are taken as parameters.

  /** `n => GetClazzID(n, layer)` for the layer being encoded: the constructor tag
      that layer uses for a predicate name. */
  type ClassOf = string -> int32

  /** `clazzIdNameRegisters2`: the predicate name registered for a constructor tag. */
  type NameOf = map<int32, string>

  /** The predicate a supertype's `Encode` dispatches on: the cached name if set,
      else the name registered for the constructor, else the empty name. */
  function ResolvePredicate(predicateName: string, constructorId: int32, names: NameOf): string
  {
    if predicateName != "" then predicateName
    else if constructorId in names then names[constructorId]
    else ""
  }

  // ---------------------------------------------------------------------------
  // Decoder with a sticky fault

  /** What is left of the wire, and whether a read has already failed. */
  datatype Decoder = Decoder(rest: seq<Token>, fault: bool)

  function Start(ts: seq<Token>): Decoder
  {
    Decoder(ts, false)
  }

  datatype Read<T> = Read(value: T, next: Decoder)

  datatype CodecError =
    | UnknownConstructor(tag: int32)   // a supertype read a tag it does not know
    | InvalidConstructor(tag: int32)   // a record's stored constructor is not its own
    | BufferFault                      // the sticky cursor fault
    | NegativeLength(count: int32)     // a vector count below zero

  /** `dBuf.GetError()` */
  function GetError(d: Decoder): (e: Option<CodecError>)
    ensures e.None? <==> !d.fault
    ensures e.Some? ==> e.value == BufferFault
  {
    if d.fault then Some(BufferFault) else None
  }

  /** The outcome of a `Decode` call: the target after decoding, the cursor, and the returned error. */
  datatype Decoded<T> = Decoded(value: T, cursor: Decoder, err: Option<CodecError>)

  /** The next token is readable: no earlier fault and something left. */
  predicate Ready(d: Decoder)
  {
    !d.fault && |d.rest| > 0
  }

  function Fail(d: Decoder): Decoder
  {
    d.(fault := true)
  }

  /** `dBuf.Int()` */
  function ReadInt(d: Decoder): (r: Read<int32>)
  {
    if Ready(d) && d.rest[0].Word? then Read(d.rest[0].w, Start(d.rest[1..])) else Read(0, Fail(d))
  }

  /** A word in front of anything reads as that word and leaves the rest. */
  lemma ReadIntHead(w: int32, s: seq<Token>)
    ensures ReadInt(Start([Word(w)] + s)) == Read(w, Start(s))
  {
    assert ([Word(w)] + s)[1..] == s;
  }

  /** `dBuf.UInt()`, read as a flags word. */
  function ReadFlags(d: Decoder): (r: Read<nat>)
    ensures Ready(d) && d.rest[0].Word? ==> r.value == WordFlags(d.rest[0].w) && r.next == Start(d.rest[1..])
    ensures !(Ready(d) && d.rest[0].Word?) ==> r.value == 0 && r.next == Fail(d)
  {
    var w := ReadInt(d);
    Read(WordFlags(w.value), w.next)
  }

  /** `dBuf.Long()` */
  function ReadLong(d: Decoder): (r: Read<int64>)
  {
    if Ready(d) && d.rest[0].Long? then Read(d.rest[0].l, Start(d.rest[1..])) else Read(0, Fail(d))
  }

  /** `dBuf.String()` */
  function ReadString(d: Decoder): (r: Read<string>)
  {
    if Ready(d) && d.rest[0].Str? then Read(d.rest[0].s, Start(d.rest[1..])) else Read("", Fail(d))
  }

  /** `dBuf.VectorLong()` */
  function ReadLongVec(d: Decoder): (r: Read<seq<int64>>)
  {
    if Ready(d) && d.rest[0].LongVec? then Read(d.rest[0].ls, Start(d.rest[1..])) else Read([], Fail(d))
  }

  /** `dBuf.VectorString()` */
  function ReadStringVec(d: Decoder): (r: Read<seq<string>>)
  {
    if Ready(d) && d.rest[0].StrVec? then Read(d.rest[0].ss, Start(d.rest[1..])) else Read([], Fail(d))
  }

  /** `o := &mtproto.K{}; o.Decode(dBuf)`: an embedded object of kind `k`. */
  function ReadObj(k: ObjKind, d: Decoder): (r: Read<External>)
  {
    if Ready(d) && d.rest[0].Obj? && d.rest[0].kind == k then Read(d.rest[0].o, Start(d.rest[1..]))
    else Read(External([]), Fail(d))
  }

  /** Once the fault is set, every read leaves the cursor where it is and yields the zero value. */
  lemma FaultIsSticky(d: Decoder, k: ObjKind)
    requires d.fault
    ensures ReadInt(d) == Read(0, d) && ReadLong(d) == Read(0, d) && ReadString(d) == Read("", d)
    ensures ReadLongVec(d) == Read([], d) && ReadStringVec(d) == Read([], d)
    ensures ReadObj(k, d) == Read(External([]), d)
  {
  }
}
