/**
 SACD permission masks and permission records: how a list of permissions is
 packed into two bits each, when a record is live, and when it expires.
 */
module Sacd {
  import opened Calendar

  // ---- Unbounded naturals as bit strings --------------------------------

  function BitOr(a: nat, b: nat): nat {
    if a == 0 then b
    else if b == 0 then a
    else 2 * BitOr(a / 2, b / 2) + (if a % 2 == 1 || b % 2 == 1 then 1 else 0)
  }

  function ShiftLeft(a: nat, k: nat): nat {
    if k == 0 then a else 2 * ShiftLeft(a, k - 1)
  }

  function ShiftRight(a: nat, k: nat): nat {
    if k == 0 then a else ShiftRight(a / 2, k - 1)
  }

  predicate Bit(a: nat, i: nat) {
    ShiftRight(a, i) % 2 == 1
  }

  lemma {:induction false} ZeroHasNoBits(i: nat)
    ensures ShiftRight(0, i) == 0
  {
    if i > 0 {
      ZeroHasNoBits(i - 1);
    }
  }

  lemma {:induction false} BitOfOr(a: nat, b: nat, i: nat)
    ensures Bit(BitOr(a, b), i) <==> Bit(a, i) || Bit(b, i)
  {
    ZeroHasNoBits(i);
    if a != 0 && b != 0 && i > 0 {
      BitOfOr(a / 2, b / 2, i - 1);
      assert BitOr(a, b) / 2 == BitOr(a / 2, b / 2);
    }
  }

  lemma {:induction false} BitOfShift(a: nat, k: nat, i: nat)
    ensures Bit(ShiftLeft(a, k), i) <==> i >= k && Bit(a, i - k)
  {
    if k > 0 {
      if i > 0 {
        BitOfShift(a, k - 1, i - 1);
        assert ShiftLeft(a, k) / 2 == ShiftLeft(a, k - 1);
      }
    }
  }

  /** Two naturals with the same bits are the same number. */
  lemma {:induction false} BitsDetermine(a: nat, b: nat)
    requires forall i: nat :: Bit(a, i) <==> Bit(b, i)
    ensures a == b
    decreases a + b
  {
    assert Bit(a, 0) <==> Bit(b, 0);
    if a + b > 1 {
      forall i: nat
        ensures Bit(a / 2, i) <==> Bit(b / 2, i)
      {
        assert Bit(a, i + 1) <==> Bit(b, i + 1);
      }
      BitsDetermine(a / 2, b / 2);
    }
  }

  // ---- Permission masks -------------------------------------------------

  /** Permission n occupies bits 2n and 2n+1; this is `(mask >> 2n) & 3`. */
  function Field(mask: nat, p: nat): nat {
    ShiftRight(mask, 2 * p) % 4
  }

  lemma {:induction false} ShiftRightStep(a: nat, i: nat)
    ensures ShiftRight(a, i + 1) == ShiftRight(a, i) / 2
  {
    if i > 0 {
      ShiftRightStep(a / 2, i - 1);
    }
  }

  lemma FieldIsTwoBits(mask: nat, p: nat)
    ensures Field(mask, p) == (if Bit(mask, 2 * p) then 1 else 0) + (if Bit(mask, 2 * p + 1) then 2 else 0)
  {
    ShiftRightStep(mask, 2 * p);
  }

  lemma FieldsDetermine(a: nat, b: nat)
    requires forall p: nat :: Field(a, p) == Field(b, p)
    ensures a == b
  {
    forall i: nat
      ensures Bit(a, i) <==> Bit(b, i)
    {
      FieldIsTwoBits(a, i / 2);
      FieldIsTwoBits(b, i / 2);
      assert Field(a, i / 2) == Field(b, i / 2);
      assert i == 2 * (i / 2) || i == 2 * (i / 2) + 1;
    }
    BitsDetermine(a, b);
  }

  lemma FieldOfGrant(mask: nat, q: nat, p: nat)
    ensures Field(BitOr(mask, ShiftLeft(3, 2 * q)), p) == if p == q then 3 else Field(mask, p)
  {
    forall i: nat | i == 2 * p || i == 2 * p + 1
      ensures Bit(BitOr(mask, ShiftLeft(3, 2 * q)), i) <==> Bit(mask, i) || p == q
    {
      BitOfOr(mask, ShiftLeft(3, 2 * q), i);
      BitOfShift(3, 2 * q, i);
      if i >= 2 * q + 2 {
        assert ShiftRight(3, i - 2 * q) == ShiftRight(0, i - 2 * q - 2);
        ZeroHasNoBits(i - 2 * q - 2);
      }
      assert Bit(3, 0) && Bit(3, 1);
    }
    FieldIsTwoBits(mask, p);
    FieldIsTwoBits(BitOr(mask, ShiftLeft(3, 2 * q)), p);
  }

  /** The mask a list of permissions must pack into: "11" for each one listed, "00" elsewhere. */
  ghost predicate Packs(mask: nat, granted: seq<nat>) {
    forall p: nat :: Field(mask, p) == if p in granted then 3 else 0
  }

  method Permissions(granted: seq<nat>) returns (mask: nat)
    ensures Packs(mask, granted)
  {
    mask := 0;
    forall p: nat ensures Field(0, p) == 0 { ZeroHasNoBits(2 * p); }
    for n := 0 to |granted|
      invariant Packs(mask, granted[..n])
    {
      forall p: nat
        ensures Field(BitOr(mask, ShiftLeft(3, 2 * granted[n])), p) == if p in granted[..n + 1] then 3 else 0
      {
        FieldOfGrant(mask, granted[n], p);
        assert Field(mask, p) == if p in granted[..n] then 3 else 0;
        assert granted[..n + 1] == granted[..n] + [granted[n]];
      }
      mask := BitOr(mask, ShiftLeft(3, 2 * granted[n]));
    }
    assert granted[..|granted|] == granted;
  }

  /** Packing ignores order and repetition: the set of permissions determines the mask. */
  lemma PackingIsOrderFree(m: nat, granted: seq<nat>, m': nat, granted': seq<nat>)
    requires Packs(m, granted) && Packs(m', granted')
    requires forall p: nat :: p in granted <==> p in granted'
    ensures m == m'
  {
    forall p: nat ensures Field(m, p) == Field(m', p) {
      assert p in granted <==> p in granted';
    }
    FieldsDetermine(m, m');
  }

  const DEFAULT_LIST: seq<nat> := [1, 2, 3, 4, 5, 6, 7]
  const FULL_LIST: seq<nat> := [1, 2, 3, 4, 5, 6, 7, 8]
  const DEFAULT_PERMISSIONS: nat := 0xFFFC
  const FULL_PERMISSIONS: nat := 0x3FFFC
  const NO_PERMISSIONS: nat := 0
  const REVOKED_EXPIRATION: int := 0

  /** The lowest `n` fields all set. */
  function Ones(n: nat): nat {
    if n == 0 then 0 else 4 * Ones(n - 1) + 3
  }

  lemma FieldAbove(a: nat, p: nat)
    ensures Field(a, p + 1) == Field(a / 4, p)
  {
    var k := 2 * p;
    assert ShiftRight(a, k + 2) == ShiftRight(a / 2, k + 1) == ShiftRight(a / 2 / 2, k);
    assert 2 * (p + 1) == k + 2;
    assert a / 2 / 2 == a / 4;
  }

  lemma {:induction false} FieldsOfOnes(n: nat, p: nat)
    ensures Field(Ones(n), p) == if p < n then 3 else 0
  {
    if n == 0 {
      ZeroHasNoBits(2 * p);
    } else if p > 0 {
      FieldsOfOnes(n - 1, p - 1);
      FieldAbove(Ones(n), p - 1);
    }
  }

  /** The named masks: the full one is 0xFFFF shifted past the two reserved bits. */
  lemma NamedMasks()
    ensures FULL_PERMISSIONS == ShiftLeft(0xFFFF, 2)
    ensures Packs(FULL_PERMISSIONS, FULL_LIST)
    ensures Packs(DEFAULT_PERMISSIONS, DEFAULT_LIST)
    ensures Packs(NO_PERMISSIONS, [])
  {
    assert FULL_PERMISSIONS == 4 * Ones(8) && DEFAULT_PERMISSIONS == 4 * Ones(7);
    forall p: nat
      ensures Field(FULL_PERMISSIONS, p) == if p in FULL_LIST then 3 else 0
      ensures Field(DEFAULT_PERMISSIONS, p) == if p in DEFAULT_LIST then 3 else 0
      ensures Field(NO_PERMISSIONS, p) == 0
    {
      ZeroHasNoBits(2 * p);
      if p > 0 {
        FieldsOfOnes(8, p - 1);
        FieldsOfOnes(7, p - 1);
        FieldAbove(FULL_PERMISSIONS, p - 1);
        FieldAbove(DEFAULT_PERMISSIONS, p - 1);
      }
    }
  }

  // ---- The document beside the mask -------------------------------------

  /** The privilege name a SACD document uses for a permission, "" for a number the SDK has no name for. */
  function PrivilegeName(p: nat): string {
    match p
    case 1 => "GetNonLocationHistory"
    case 2 => "ExecuteCommands"
    case 3 => "GetCurrentLocation"
    case 4 => "GetLocationHistory"
    case 5 => "GetVINCredential"
    case 6 => "GetLiveData"
    case 7 => "GetRawData"
    case 8 => "GetApproximateLocation"
    case _ => ""
  }

  lemma PrivilegeNamesAreDistinct(p: nat, q: nat)
    requires PrivilegeName(p) != "" && PrivilegeName(p) == PrivilegeName(q)
    ensures p == q
  {
    var n := PrivilegeName(p);
    if |n| == 10 {
    } else if |n| == 21 {
    } else if |n| == 15 {
    } else if |n| == 18 {
      assert n[3] == 'C' || n[3] == 'L';
    } else if |n| == 16 {
    } else if |n| == 11 {
    } else {
      assert |n| == 22;
    }
  }

  /** The privileges a document names, in list order, skipping numbers without a name. */
  method DocumentPrivileges(granted: seq<nat>) returns (names: seq<string>)
    ensures forall n :: n in names <==> exists p :: p in granted && PrivilegeName(p) == n && n != ""
  {
    names := [];
    for i := 0 to |granted|
      invariant forall n :: n in names <==> exists p :: p in granted[..i] && PrivilegeName(p) == n && n != ""
    {
      assert granted[..i + 1] == granted[..i] + [granted[i]];
      if PrivilegeName(granted[i]) != "" {
        names := names + [PrivilegeName(granted[i])];
      }
    }
    assert granted[..|granted|] == granted;
  }

  /**
   For any list of named permissions the document and the mask say the same
   thing: a privilege is named exactly when its field reads granted.
   */
  lemma DocumentMatchesMask(mask: nat, granted: seq<nat>, names: seq<string>, p: nat)
    requires Packs(mask, granted)
    requires forall n :: n in names <==> exists q :: q in granted && PrivilegeName(q) == n && n != ""
    requires PrivilegeName(p) != ""
    ensures PrivilegeName(p) in names <==> Field(mask, p) == 3
  {
    assert Field(mask, p) == if p in granted then 3 else 0;
    if PrivilegeName(p) in names {
      var q :| q in granted && PrivilegeName(q) == PrivilegeName(p);
      PrivilegeNamesAreDistinct(p, q);
    }
  }

  // ---- Permission records -----------------------------------------------

  datatype Record = Record(mask: nat, expiration: int, source: string)

  /** What the chain answers for a grantee that never had a record, and what a revocation writes. */
  const NO_RECORD := Record(NO_PERMISSIONS, REVOKED_EXPIRATION, "")

  /** `GrantIsLive`: unexpired, with permission bits or a source to lose. */
  predicate GrantIsLive(r: Record, now: int) {
    r.expiration > now && (r.mask != 0 || r.source != "")
  }

  /** The contract's own check of one permission at one block time. */
  predicate Grants(r: Record, p: nat, now: int) {
    now < r.expiration && Field(r.mask, p) == 3
  }

  /** Either half of a revocation is enough on its own: no permission is granted at any time. */
  lemma RevokedGrantsNothing(r: Record, p: nat, now: int)
    requires r.mask == NO_PERMISSIONS || (r.expiration == REVOKED_EXPIRATION && now >= 0)
    ensures !Grants(r, p, now)
    ensures r == NO_RECORD ==> !GrantIsLive(r, now)
  {
    ZeroHasNoBits(2 * p);
  }

  /** Whatever a record grants, `GrantIsLive` sees. */
  lemma LiveCoversGrants(r: Record, p: nat, now: int)
    requires Grants(r, p, now)
    ensures GrantIsLive(r, now)
  {
    ZeroHasNoBits(2 * p);
  }

  /** A record is live exactly when, unexpired, it has a bit set somewhere or a document: something to lose. */
  lemma LiveMeansSomethingToLose(r: Record, now: int)
    ensures GrantIsLive(r, now) <==> now < r.expiration && (r.source != "" || exists p: nat :: Field(r.mask, p) != 0)
  {
    if forall p: nat :: Field(r.mask, p) == 0 {
      forall p: nat ensures Field(r.mask, p) == Field(0, p) {
        ZeroHasNoBits(2 * p);
      }
      FieldsDetermine(r.mask, 0);
    } else {
      var p: nat :| Field(r.mask, p) != 0;
      ZeroHasNoBits(2 * p);
    }
  }

  const INDEFINITE_YEARS := 40
  const SECOND_NANOS := 1000000000
  const DAY_NANOS := 86400 * SECOND_NANOS

  /** Go's 64-bit two's complement arithmetic. */
  function Wrap64(x: int): (r: int)
    ensures -0x8000_0000_0000_0000 <= r < 0x8000_0000_0000_0000
  {
    (x + 0x8000_0000_0000_0000) % 0x1_0000_0000_0000_0000 - 0x8000_0000_0000_0000
  }

  /** `time.Duration(days) * 24 * time.Hour`, which wraps. */
  function ShareDuration(days: int): int {
    Wrap64(days * DAY_NANOS)
  }

  /** What the clock shows below the second. */
  type Fraction = n: nat | n < SECOND_NANOS

  /** `ExpirationFrom`: a duration (in nanoseconds) of zero or less means forty years; the sum is cut to the second. */
  function ExpirationFrom(now: Moment, fraction: Fraction, nanos: int): int {
    if nanos <= 0 then Unix(AddYearsRolling(now, INDEFINITE_YEARS)) else Unix(now) + (fraction + nanos) / SECOND_NANOS
  }

  /**
   With a duration, the last whole second not after now plus the duration;
   without one, the same time of day on the same day forty years on, counted
   over into March where there is no such day.
   */
  lemma ExpirationIs(now: Moment, fraction: Fraction, nanos: int)
    ensures nanos > 0 ==>
              var until := Unix(now) * SECOND_NANOS + fraction + nanos;
              ExpirationFrom(now, fraction, nanos) * SECOND_NANOS <= until < (ExpirationFrom(now, fraction, nanos) + 1) * SECOND_NANOS
    ensures nanos <= 0 ==>
              ExpirationFrom(now, fraction, nanos) == (DaysBefore(now.month + 480) + now.day - 1 - UNIX_EPOCH) * 86400 + now.sec
  {
    hide DaysBefore, MonthLength;
    AddYearsRollingIs(now, INDEFINITE_YEARS);
  }

  lemma {:induction false} MonthsAreShort(month: nat, n: nat)
    ensures DaysBefore(month) + 28 * n <= DaysBefore(month + n) <= DaysBefore(month) + 31 * n
  {
    if n > 0 {
      MonthsAreShort(month, n - 1);
    }
  }

  /** "Indefinite" lies well in the future and is nowhere near the durations that wrap. */
  lemma IndefiniteIsBounded(now: Moment)
    ensures Unix(now) < Unix(AddYearsRolling(now, INDEFINITE_YEARS)) < Unix(now) + 20000 * 86400
  {
    hide MonthLength;
    MonthsAreShort(now.month, 480);
    MonthsAreShort(now.month, 481);
  }

  /** The expiration lies in a later second exactly when there is no duration, or it reaches the next second. */
  lemma ExpirationIsInTheFutureIff(now: Moment, fraction: Fraction, nanos: int)
    ensures ExpirationFrom(now, fraction, nanos) > Unix(now) <==> nanos <= 0 || fraction + nanos >= SECOND_NANOS
  {
    hide AddYearsRolling, Unix;
    IndefiniteIsBounded(now);
  }

  const LONGEST_SHARE_DAYS := 106751

  /**
   A share asked for a number of days lasts that many days exactly when they
   fit a 64-bit count of nanoseconds; past 106751 days the product wraps and
   the share lasts some other time.
   */
  lemma ShareLastsAsAskedIff(now: Moment, fraction: Fraction, days: int)
    requires 0 < days
    ensures ExpirationFrom(now, fraction, ShareDuration(days)) == Unix(now) + days * 86400 <==> days <= LONGEST_SHARE_DAYS
  {
    hide AddYearsRolling, Unix;
    IndefiniteIsBounded(now);
    if days <= LONGEST_SHARE_DAYS {
      assert ShareDuration(days) == days * 86400 * SECOND_NANOS;
      assert (fraction + days * 86400 * SECOND_NANOS) / SECOND_NANOS == days * 86400;
    } else {
      assert (fraction + ShareDuration(days)) / SECOND_NANOS < 106752 * 86400 <= days * 86400;
    }
  }
}
