/**
 * The user service's cache record and its helpers: the cache key of a user's
 * data ("user_data.1#<id>"), the emoji status built from two stored columns,
 * and the `CacheUserData` record with its nil-safe getters.
 *
 * The decimal conversions are the Go library's: `fmt.Sprintf("%d")` for an
 * int64 and `strconv.ParseInt(s, 10, 64)`, whose error the key parser drops.
 */
module UserDataCache {
  import opened Wire

  // ---------------------------------------------------------------------------
  // Decimal text of an int64

  const MaxUint64: nat := 0xFFFF_FFFF_FFFF_FFFF
  const MinInt64: int64 := -0x8000_0000_0000_0000
  const MaxInt64: int64 := 0x7FFF_FFFF_FFFF_FFFF

  predicate IsDigit(c: char)
  {
    '0' <= c <= '9'
  }

  function DigitValue(c: char): (d: nat)
    requires IsDigit(c)
    ensures d < 10
  {
    c as int - '0' as int
  }

  function DigitChar(d: nat): (c: char)
    requires d < 10
    ensures IsDigit(c) && DigitValue(c) == d
  {
    ('0' as int + d) as char
  }

  /** The decimal digits of `n`, most significant first, without leading zeros. */
  function DecimalString(n: nat): (s: string)
    ensures |s| > 0 && IsDigit(s[0])
    ensures forall i :: 0 <= i < |s| ==> IsDigit(s[i])
  {
    if n < 10 then [DigitChar(n)] else DecimalString(n / 10) + [DigitChar(n % 10)]
  }

  /** `fmt.Sprintf("%d", n)` for an int64: a minus sign, then the digits of the magnitude. */
  function FormatInt(n: int64): (s: string)
    ensures |s| > 0 && (s[0] == '-' <==> n < 0) && s[0] != '+'
  {
    if n < 0 then "-" + DecimalString(-(n as int)) else DecimalString(n as int)
  }

  /** How `strconv.ParseUint(s, 10, 64)` ends: a value, or one of its two errors. */
  datatype UintScan = Digits(n: nat) | SyntaxError | RangeError

  /**
   * The digit loop of `strconv.ParseUint` in base 10, from accumulator `n`: a
   * non-digit is a syntax error; an accumulator that would pass 2^64 - 1 is a
   * range error, reported at once even if a non-digit follows.
   */
  function ScanDigits(s: string, n: nat): (r: UintScan)
    requires n <= MaxUint64
    ensures r.Digits? ==> r.n <= MaxUint64
    ensures r.Digits? ==> forall i :: 0 <= i < |s| ==> IsDigit(s[i])
    decreases |s|
  {
    if s == [] then Digits(n)
    else if !IsDigit(s[0]) then SyntaxError
    else if n >= MaxUint64 / 10 + 1 then RangeError
    else if n * 10 + DigitValue(s[0]) > MaxUint64 then RangeError
    else ScanDigits(s[1..], n * 10 + DigitValue(s[0]))
  }

  /** `strconv.ParseUint(s, 10, 64)`: the empty string is a syntax error. */
  function ParseUint(s: string): (r: UintScan)
    ensures r.Digits? ==> |s| > 0 && r.n <= MaxUint64
  {
    if s == [] then SyntaxError else ScanDigits(s, 0)
  }

  /** What ParseInt hands to ParseUint: `s` without one leading sign. */
  function Unsigned(s: string): (u: string)
    ensures |u| == |s| || (|u| == |s| - 1 && (s[0] == '+' || s[0] == '-'))
  {
    if |s| > 0 && (s[0] == '+' || s[0] == '-') then s[1..] else s
  }

  /**
   * `v, _ := strconv.ParseInt(s, 10, 64)`: one optional sign, then ParseUint of
   * the rest. A syntax error gives 0; an out-of-range value gives the nearest
   * int64 bound.
   */
  function ParseInt(s: string): (v: int64)
    ensures s == [] ==> v == 0
    ensures Unsigned(s) == [] ==> v == 0
  {
    if s == [] then 0
    else
      var neg := s[0] == '-';
      match ParseUint(Unsigned(s))
      case SyntaxError => 0
      case RangeError => if neg then MinInt64 else MaxInt64
      case Digits(un) =>
        if !neg && un >= 0x8000_0000_0000_0000 then MaxInt64
        else if neg && un > 0x8000_0000_0000_0000 then MinInt64
        else if neg then -(un as int) as int64
        else un as int64
  }

  /** Scanning a concatenation: the second part continues from where the first left the accumulator. */
  lemma {:induction false} ScanAppend(a: string, b: string, n: nat)
    requires n <= MaxUint64
    ensures ScanDigits(a + b, n) ==
      match ScanDigits(a, n)
      case Digits(m) => ScanDigits(b, m)
      case SyntaxError => SyntaxError
      case RangeError => RangeError
  {
    if a == [] {
      assert a + b == b;
    } else {
      assert (a + b)[0] == a[0];
      assert (a + b)[1..] == a[1..] + b;
      if IsDigit(a[0]) && n < MaxUint64 / 10 + 1 && n * 10 + DigitValue(a[0]) <= MaxUint64 {
        ScanAppend(a[1..], b, n * 10 + DigitValue(a[0]));
      }
    }
  }

  /** The digit loop reads back every value its own output spells. */
  lemma {:induction false} DecimalScan(n: nat)
    requires n <= MaxUint64
    ensures ScanDigits(DecimalString(n), 0) == Digits(n)
  {
    if n < 10 {
      assert DecimalString(n)[1..] == [];
    } else {
      DecimalScan(n / 10);
      ScanAppend(DecimalString(n / 10), [DigitChar(n % 10)], 0);
      var last := [DigitChar(n % 10)];
      assert last[1..] == [];
    }
  }

  /** A magnitude past 2^64 - 1 overflows the digit loop before it ends. */
  lemma {:induction false} ScanOverflow(n: nat)
    requires n > MaxUint64
    ensures ScanDigits(DecimalString(n), 0) == RangeError
    decreases n
  {
    var last := [DigitChar(n % 10)];
    ScanAppend(DecimalString(n / 10), last, 0);
    if n / 10 > MaxUint64 {
      ScanOverflow(n / 10);
    } else {
      DecimalScan(n / 10);
      assert last[1..] == [];
    }
  }

  /**
   * A character other than a digit after the optional sign makes ParseInt give
   * 0, unless the digits before it already overflowed.
   */
  lemma ParseIntSyntaxError(s: string, i: nat)
    requires i < |Unsigned(s)| && !IsDigit(Unsigned(s)[i])
    requires ScanDigits(Unsigned(s)[..i], 0).Digits?
    ensures ParseInt(s) == 0
  {
    var u := Unsigned(s);
    assert u == u[..i] + u[i..];
    ScanAppend(u[..i], u[i..], 0);
    assert u[i..][0] == u[i];
  }

  /**
   * A magnitude of 2^63 or more, of any length, gives the nearest int64
   * bound: MaxInt64 unsigned or with a plus sign, MinInt64 with a minus sign.
   */
  lemma ParseIntClamps(n: nat)
    requires n >= 0x8000_0000_0000_0000
    ensures ParseInt(DecimalString(n)) == MaxInt64
    ensures ParseInt("+" + DecimalString(n)) == MaxInt64
    ensures ParseInt("-" + DecimalString(n)) == MinInt64
  {
    var d := DecimalString(n);
    if n <= MaxUint64 {
      DecimalScan(n);
    } else {
      ScanOverflow(n);
    }
    assert Unsigned(d) == d;
    assert Unsigned("+" + d) == d;
    assert Unsigned("-" + d) == d;
  }

  /** ParseInt inverts `%d` on every int64, the minimum included. */
  lemma FormatParseRoundTrip(n: int64)
    ensures ParseInt(FormatInt(n)) == n
  {
    if n < 0 {
      var digits := DecimalString(-(n as int));
      assert ("-" + digits)[1..] == digits;
      DecimalScan(-(n as int));
    } else {
      DecimalScan(n as int);
    }
  }

  // ---------------------------------------------------------------------------
  // Cache keys

  const CacheUserDataKeyPrefix := "user_data.1"

  predicate HasPrefix(s: string, p: string)
  {
    |p| <= |s| && s[..|p|] == p
  }

  /** `genCacheUserDataCacheKey(id)`: the prefix, a '#', then the id in decimal. */
  function GenCacheUserDataCacheKey(id: int64): (k: string)
    ensures HasPrefix(k, CacheUserDataKeyPrefix + "#")
  {
    CacheUserDataKeyPrefix + "#" + FormatInt(id)
  }

  /**
   * `parseCacheUserDataCacheKey(k)`: the id after "user_data.1#", read by ParseInt
   * with its error dropped; 0 for a key without that head.
   */
  function ParseCacheUserDataCacheKey(k: string): (id: int64)
    ensures !HasPrefix(k, CacheUserDataKeyPrefix + "#") ==> id == 0
    ensures HasPrefix(k, CacheUserDataKeyPrefix + "#") && |k| == |CacheUserDataKeyPrefix| + 1 ==> id == 0
  {
    if HasPrefix(k, CacheUserDataKeyPrefix + "#") then ParseInt(k[|CacheUserDataKeyPrefix| + 1..]) else 0
  }

  /** `isCacheUserDataCacheKey(k)`: only the prefix, without the '#', is checked. */
  function IsCacheUserDataCacheKey(k: string): (ok: bool)
    ensures HasPrefix(k, CacheUserDataKeyPrefix + "#") ==> ok
  {
    HasPrefix(k, CacheUserDataKeyPrefix)
  }

  /** parse(gen(id)) == id for every int64 id. */
  lemma KeyRoundTrip(id: int64)
    ensures ParseCacheUserDataCacheKey(GenCacheUserDataCacheKey(id)) == id
  {
    var head := CacheUserDataKeyPrefix + "#";
    assert (head + FormatInt(id))[|head|..] == FormatInt(id);
    FormatParseRoundTrip(id);
  }

  /** Every generated key is recognised as a cache key, and distinct ids get distinct keys. */
  lemma GeneratedKeysAreDistinctKeys(a: int64, b: int64)
    ensures IsCacheUserDataCacheKey(GenCacheUserDataCacheKey(a))
    ensures GenCacheUserDataCacheKey(a) == GenCacheUserDataCacheKey(b) <==> a == b
  {
    KeyRoundTrip(a);
    KeyRoundTrip(b);
  }

  /**
   * The recogniser is looser than the parser: the bare prefix "user_data.1" is
   * recognised as a cache key, yet no id can be read from it.
   */
  lemma RecognisedKeyWithoutId()
    ensures IsCacheUserDataCacheKey(CacheUserDataKeyPrefix)
    ensures !HasPrefix(CacheUserDataKeyPrefix, CacheUserDataKeyPrefix + "#")
    ensures ParseCacheUserDataCacheKey(CacheUserDataKeyPrefix) == 0
  {
    assert |CacheUserDataKeyPrefix| < |CacheUserDataKeyPrefix + "#"|;
  }

  // ---------------------------------------------------------------------------
  // Emoji status

  /** The two shapes of an emoji status: emojiStatus (document_id) and emojiStatusUntil (document_id, until). */
  datatype EmojiStatus =
    | Status(documentId: int64)
    | StatusUntil(documentId: int64, until: int32)

  /** `GetUntil()` on the status storage: the plain shape leaves the field at zero. */
  function Expiry(s: EmojiStatus): int32
  {
    if s.StatusUntil? then s.until else 0
  }

  /**
   * `makeEmojiStatus(documentId, until)` as the source writes it: no status for
   * document 0; for a positive `until` the plain status, otherwise the "until"
   * shape carrying `until`.
   */
  function MakeEmojiStatus(documentId: int64, until: int32): (r: Option<EmojiStatus>)
    ensures r.None? <==> documentId == 0
    ensures r.Some? ==> r.value.documentId == documentId
  {
    if documentId == 0 then None
    else if until > 0 then Some(Status(documentId))
    else Some(StatusUntil(documentId, until))
  }

  /**
   * As written, an expiry in the future is lost: a positive `until` yields a
   * status whose expiry reads back as 0, and every "until" status it builds has
   * an expiry of 0 or less.
   */
  lemma MakeEmojiStatusDropsExpiry(documentId: int64, until: int32)
    requires documentId != 0
    ensures until > 0 ==> MakeEmojiStatus(documentId, until) == Some(Status(documentId))
    ensures until <= 0 ==> MakeEmojiStatus(documentId, until) == Some(StatusUntil(documentId, until))
    ensures until > 0 ==> Expiry(MakeEmojiStatus(documentId, until).value) != until
    ensures MakeEmojiStatus(documentId, until).value.StatusUntil? ==> Expiry(MakeEmojiStatus(documentId, until).value) <= 0
  {
  }

  /** The selector with its branches the right way round: a positive `until` gives the "until" shape. */
  function MakeEmojiStatusFixed(documentId: int64, until: int32): (r: Option<EmojiStatus>)
    ensures r.None? <==> documentId == 0
    ensures r.Some? ==> r.value.documentId == documentId
  {
    if documentId == 0 then None
    else if until > 0 then Some(StatusUntil(documentId, until))
    else Some(Status(documentId))
  }

  /** A status the fixed selector can produce: a real document, and an expiry only when positive. */
  predicate StoredStatus(s: EmojiStatus)
  {
    s.documentId != 0 && (s.StatusUntil? ==> s.until > 0)
  }

  /**
   * The fixed selector keeps the expiry: the status reads back its document and
   * its positive `until` (0 stands for "no expiry"), and it inverts reading a
   * stored status back into its two columns.
   */
  lemma EmojiStatusFixedRoundTrip(documentId: int64, until: int32, s: EmojiStatus)
    ensures documentId != 0 ==>
      && MakeEmojiStatusFixed(documentId, until).Some?
      && StoredStatus(MakeEmojiStatusFixed(documentId, until).value)
      && Expiry(MakeEmojiStatusFixed(documentId, until).value) == (if until > 0 then until else 0)
    ensures StoredStatus(s) ==> MakeEmojiStatusFixed(s.documentId, Expiry(s)) == Some(s)
  {
  }

  // ---------------------------------------------------------------------------
  // The cache record

  /**
   * `CacheUserData`: the user's data record and three lists, each of which may be
   * nil (`None`) or a slice, possibly empty; the JSON form tells the two apart.
   */
  datatype CacheUserData = CacheUserData(
    userData: Option<External>,
    contactIdList: Option<seq<int64>>,
    cachesPrivacyKeyRules: Option<seq<External>>,
    reverseContactIdList: Option<seq<int64>>)

  /** `NewCacheUserData()`: no user data, and three empty but non-nil lists. */
  function NewCacheUserData(): (c: CacheUserData)
    ensures c.userData.None?
    ensures c.contactIdList == Some([]) && c.cachesPrivacyKeyRules == Some([]) && c.reverseContactIdList == Some([])
  {
    CacheUserData(None, Some([]), Some([]), Some([]))
  }

  /** `(*CacheUserData).GetContactIdList()`, safe on a nil receiver. */
  function GetContactIdList(m: Option<CacheUserData>): (l: Option<seq<int64>>)
    ensures m.None? ==> l.None?
    ensures m.Some? ==> l == m.value.contactIdList
  {
    if m.None? then None else m.value.contactIdList
  }

  /** `(*CacheUserData).GetReverseContactIdList()`, safe on a nil receiver. */
  function GetReverseContactIdList(m: Option<CacheUserData>): (l: Option<seq<int64>>)
    ensures m.None? ==> l.None?
    ensures m.Some? ==> l == m.value.reverseContactIdList
  {
    if m.None? then None else m.value.reverseContactIdList
  }

  /** `(*CacheUserData).GetUserData()`, safe on a nil receiver. */
  function GetUserData(m: Option<CacheUserData>): (u: Option<External>)
    ensures m.None? ==> u.None?
    ensures m.Some? ==> u == m.value.userData
  {
    if m.None? then None else m.value.userData
  }

  /**
   * A new record and a nil one read the same user data (nil) but different
   * lists: the new record's lists are empty slices, the nil record's are nil.
   */
  lemma NewRecordAgainstNil()
    ensures GetUserData(Some(NewCacheUserData())) == GetUserData(None) == None
    ensures GetContactIdList(Some(NewCacheUserData())) == Some([]) != GetContactIdList(None)
    ensures GetReverseContactIdList(Some(NewCacheUserData())) == Some([]) != GetReverseContactIdList(None)
  {
  }
}
