/** The Redis ready member: a sign-flipped fixed-width hexadecimal time and the
    job id, whose byte order is the (enqueued, id) order. */
module ReadyMembers {
  import opened Text

  /** Microseconds from Go's zero time to the Unix epoch. */
  const UNIX_EPOCH := 62_135_596_800_000_000
  const MAX_EXACT_TIME := 0x1f_ffff_ffff_ffff
  const TWO_63 := 0x8000_0000_0000_0000
  const TWO_64 := 0x1_0000_0000_0000_0000

  /** redisJobStoreTime: the microseconds are an exact float score. */
  predicate ExactTime(at: int) {
    -MAX_EXACT_TIME <= at - UNIX_EPOCH <= MAX_EXACT_TIME
  }

  /** The zero time is far outside the exact range. */
  lemma ZeroIsNotExact()
    ensures !ExactTime(0)
  {
  }

  /** uint64(micros) ^ 1<<63 for a 64-bit signed value. */
  function SignFlip(micros: int): (v: nat)
    requires -TWO_63 <= micros < TWO_63
    ensures v < TWO_64
  {
    var unsigned := if micros < 0 then micros + TWO_64 else micros;
    if unsigned >= TWO_63 then unsigned - TWO_63 else unsigned + TWO_63
  }

  lemma SignFlipShifts(micros: int)
    requires -TWO_63 <= micros < TWO_63
    ensures SignFlip(micros) == micros + TWO_63
  {
  }

  function HexDigit(d: nat): char
    requires d < 16
  {
    if d < 10 then '0' + d as char else 'a' + (d - 10) as char
  }

  function Power16(width: nat): (p: nat)
    ensures p >= 1
  {
    if width == 0 then 1 else 16 * Power16(width - 1)
  }

  /** Lower-case hexadecimal of a fixed width, padded with zeros. */
  function Hex(v: nat, width: nat): (s: string)
    ensures |s| == width
  {
    if width == 0 then "" else Hex(v / 16, width - 1) + [HexDigit(v % 16)]
  }

  lemma HexDigitOrder(a: nat, b: nat)
    requires a < 16 && b < 16
    ensures HexDigit(a) < HexDigit(b) <==> a < b
    ensures HexDigit(a) == HexDigit(b) <==> a == b
  {
  }

  /** Fixed-width hexadecimal orders like the numbers. */
  lemma {:induction false} HexOrder(a: nat, b: nat, width: nat)
    requires a < Power16(width) && b < Power16(width)
    ensures Less(Hex(a, width), Hex(b, width)) <==> a < b
    ensures Hex(a, width) == Hex(b, width) <==> a == b
  {
    if width > 0 {
      var da, db := [HexDigit(a % 16)], [HexDigit(b % 16)];
      HexOrder(a / 16, b / 16, width - 1);
      HexDigitOrder(a % 16, b % 16);
      LessPrefixed(Hex(a / 16, width - 1), da, Hex(b / 16, width - 1), db);
      assert Less(da, db) <==> da[0] < db[0];
      LessTotal(Hex(a / 16, width - 1), Hex(a / 16, width - 1));
      assert Hex(a, width)[..width - 1] == Hex(a / 16, width - 1)
          && Hex(b, width)[..width - 1] == Hex(b / 16, width - 1);
      assert Hex(a, width)[width - 1] == da[0] && Hex(b, width)[width - 1] == db[0];
    }
  }

  /** The width of the "%016x" format. */
  function HexWidth(): (width: nat)
    ensures width == 16
  {
    16
  }

  function TimePrefix(enqueuedAt: int): (prefix: string)
    requires ExactTime(enqueuedAt)
    ensures |prefix| == 16
  {
    Hex(SignFlip(enqueuedAt - UNIX_EPOCH), HexWidth())
  }

  function ReadyMember(enqueuedAt: int, id: string): (member: string)
    requires ExactTime(enqueuedAt)
    ensures |member| == 17 + |id|
  {
    TimePrefix(enqueuedAt) + ":" + id
  }

  /** Lua's string.sub(member, 18) gives the id back. */
  lemma MemberId(enqueuedAt: int, id: string)
    requires ExactTime(enqueuedAt)
    ensures ReadyMember(enqueuedAt, id)[17..] == id
  {
  }

  lemma TaggedOrder(p: string, a: string, q: string, b: string)
    requires |p| == |q|
    ensures Less(p + ":" + a, q + ":" + b) <==> Less(p, q) || (p == q && Less(a, b))
  {
    LessPrefixed(p + ":", a, q + ":", b);
    LessPrefixed(p, ":", q, ":");
    LessTotal(":", ":");
    assert p + ":" == q + ":" ==> p == (p + ":")[..|p|] == q;
  }

  lemma TimeOrder(atA: int, atB: int)
    requires ExactTime(atA) && ExactTime(atB)
    ensures Less(TimePrefix(atA), TimePrefix(atB)) <==> atA < atB
    ensures TimePrefix(atA) == TimePrefix(atB) <==> atA == atB
  {
    SignFlipShifts(atA - UNIX_EPOCH);
    SignFlipShifts(atB - UNIX_EPOCH);
    Sixteen();
    HexOrder(SignFlip(atA - UNIX_EPOCH), SignFlip(atB - UNIX_EPOCH), HexWidth());
  }

  /** Members sort by bytes exactly as jobs by enqueue time and then id. */
  lemma MemberOrder(atA: int, a: string, atB: int, b: string)
    requires ExactTime(atA) && ExactTime(atB)
    ensures Less(ReadyMember(atA, a), ReadyMember(atB, b)) <==> atA < atB || (atA == atB && Less(a, b))
  {
    TimeOrder(atA, atB);
    TaggedOrder(TimePrefix(atA), a, TimePrefix(atB), b);
  }

  lemma Sixteen()
    ensures Power16(16) == TWO_64
  {
    assert Power16(4) == 0x1_0000;
    assert Power16(8) == 0x1_0000 * Power16(4);
    assert Power16(12) == 0x1_0000 * Power16(8);
    assert Power16(16) == 0x1_0000 * Power16(12);
  }
}
