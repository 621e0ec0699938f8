/**
 * Enrolment of a user as a Maplerad customer, from
 * src/app/users/services/maplerad-user-account.service.ts: the date-of-birth
 * text, the phone number split, the enrol payload and the account record.
 */
module MapleradUserAccount {
  import opened Wrappers
  import opened Errors
  import opened Records
  import opened Db

  const CountryCode := "+234"
  const Country := "NG"
  const EnrolError := "Error creating user account on Maplerad"

  // ---------------------------------------------------------------- decimal text

  predicate IsDigits(s: string)
  {
    forall i :: 0 <= i < |s| ==> '0' <= s[i] <= '9'
  }

  function DigitChar(n: nat): (c: char)
    requires n < 10
    ensures '0' <= c <= '9' && (c - '0') as nat == n
  {
    "0123456789"[n]
  }

  /** `n.toString()` for a non-negative integer: its decimal digits, no leading zero. */
  function NatToString(n: nat): (s: string)
    ensures |s| >= 1 && IsDigits(s)
    ensures |s| == 1 <==> n < 10
    ensures s[0] == '0' ==> n == 0
    decreases n
  {
    if n < 10 then [DigitChar(n)] else NatToString(n / 10) + [DigitChar(n % 10)]
  }

  /** The value of a decimal digit string; leading zeros are allowed. */
  function ParseNat(s: string): nat
    requires IsDigits(s)
  {
    if s == [] then 0 else ParseNat(s[..|s| - 1]) * 10 + (s[|s| - 1] - '0') as nat
  }

  lemma {:induction false} ParseNatToString(n: nat)
    ensures ParseNat(NatToString(n)) == n
    decreases n
  {
    if n >= 10 {
      var s := NatToString(n);
      assert s[..|s| - 1] == NatToString(n / 10);
      ParseNatToString(n / 10);
    }
  }

  /** `padStart(2, '0')`. */
  function Pad2(s: string): (r: string)
    ensures |s| >= 2 ==> r == s
    ensures |s| < 2 ==> |r| == 2 && r[2 - |s|..] == s && forall i :: 0 <= i < 2 - |s| ==> r[i] == '0'
    decreases 2 - |s|
  {
    if |s| >= 2 then s else Pad2("0" + s)
  }

  /** `text.split(sep)` for a one-character separator. */
  function Split(s: string, sep: char): (r: seq<string>)
    ensures |r| >= 1
    decreases |s|
  {
    if s == [] then [""]
    else if s[0] == sep then [""] + Split(s[1..], sep)
    else
      var rest := Split(s[1..], sep);
      [[s[0]] + rest[0]] + rest[1..]
  }

  lemma {:induction false} SplitWithout(a: string, sep: char)
    requires sep !in a
    ensures Split(a, sep) == [a]
    decreases |a|
  {
    if a != [] {
      SplitWithout(a[1..], sep);
      assert [a[0]] + a[1..] == a;
    }
  }

  lemma {:induction false} SplitAtFirst(a: string, sep: char, b: string)
    requires sep !in a
    ensures Split(a + [sep] + b, sep) == [a] + Split(b, sep)
    decreases |a|
  {
    var s := a + [sep] + b;
    if a == [] {
      assert s[1..] == b;
    } else {
      assert s[1..] == a[1..] + [sep] + b;
      SplitAtFirst(a[1..], sep, b);
      assert [a[0]] + a[1..] == a;
    }
  }

  // ---------------------------------------------------------------- date of birth

  /**
   * `formatDob`: day, then the 1-based month padded to two digits, then the
   * year, joined by hyphens; the day is not padded.
   */
  function FormatDob(d: Date): string
  {
    NatToString(d.day) + "-" + Pad2(NatToString(d.month + 1)) + "-" + NatToString(d.year)
  }

  /** Reads "<day>-<MM>-<year>" back, with a 0-based month as in `Date`. */
  function ParseDob(s: string): Option<Date>
  {
    var f := Split(s, '-');
    if |f| == 3 && IsDigits(f[0]) && IsDigits(f[1]) && IsDigits(f[2]) && |f[1]| == 2
       && 1 <= ParseNat(f[1]) <= 12
    then Some(Date(ParseNat(f[2]), ParseNat(f[1]) - 1, ParseNat(f[0])))
    else None
  }

  lemma DigitsHaveNoHyphen(s: string)
    requires IsDigits(s)
    ensures '-' !in s
  {
  }

  /** Three hyphen-free fields joined by hyphens split back into those fields. */
  lemma SplitThree(a: string, b: string, c: string)
    requires '-' !in a && '-' !in b && '-' !in c
    ensures Split(a + "-" + b + "-" + c, '-') == [a, b, c]
  {
    assert a + "-" + b + "-" + c == a + ['-'] + (b + ['-'] + c);
    SplitAtFirst(a, '-', b + ['-'] + c);
    SplitAtFirst(b, '-', c);
    SplitWithout(c, '-');
  }

  /** The month field is two digits and reads back as the 1-based month. */
  lemma MonthField(m: nat)
    requires 1 <= m <= 12
    ensures IsDigits(Pad2(NatToString(m))) && |Pad2(NatToString(m))| == 2
    ensures ParseNat(Pad2(NatToString(m))) == m
  {
    var t := NatToString(m);
    ParseNatToString(m);
    if |t| == 1 {
      var p := Pad2(t);
      assert p == ['0'] + t;
      assert p[..1] == "0";
      assert ParseNat(p[..1]) == 0 by {
        assert p[..1][..0] == [];
      }
    }
  }

  /**
   * The text `formatDob` produces has exactly three hyphen-separated fields:
   * the unpadded day, a two-digit month and the year, and it reads back as the
   * same date for every month `getMonth` can return.
   */
  lemma FormatDobRoundTrip(d: Date)
    requires d.month < 12
    ensures Split(FormatDob(d), '-') ==
      [NatToString(d.day), Pad2(NatToString(d.month + 1)), NatToString(d.year)]
    ensures ParseDob(FormatDob(d)) == Some(d)
  {
    var day, month, year := NatToString(d.day), Pad2(NatToString(d.month + 1)), NatToString(d.year);
    MonthField(d.month + 1);
    DigitsHaveNoHyphen(day);
    DigitsHaveNoHyphen(month);
    DigitsHaveNoHyphen(year);
    SplitThree(day, month, year);
    ParseNatToString(d.day);
    ParseNatToString(d.year);
  }

  // ---------------------------------------------------------------- phone number

  predicate OccursAt(s: string, sub: string, i: nat)
  {
    i + |sub| <= |s| && s[i..i + |sub|] == sub
  }

  /** `indexOf`: the first position of `sub` in `s` at or after `from`. */
  function IndexOf(s: string, sub: string, from: nat): (r: Option<nat>)
    ensures r.Some? ==> from <= r.value && OccursAt(s, sub, r.value)
    ensures r.Some? ==> forall j :: from <= j < r.value ==> !OccursAt(s, sub, j)
    ensures r.None? ==> forall j :: from <= j ==> !OccursAt(s, sub, j)
    decreases |s| - from
  {
    if from + |sub| > |s| then None
    else if s[from..from + |sub|] == sub then Some(from)
    else IndexOf(s, sub, from + 1)
  }

  /**
   * `phoneNumber.split('+234')[1]`: the text between the first "+234" and the
   * next one (or the end); absent (undefined) when there is no "+234".
   */
  function PhoneNumberAfterPrefix(phone: string): (r: Option<string>)
    ensures r.None? <==> forall j :: !OccursAt(phone, CountryCode, j)
    ensures r.Some? ==> IndexOf(r.value, CountryCode, 0).None?
    ensures |phone| >= 4 && phone[..4] == CountryCode && IndexOf(phone[4..], CountryCode, 0).None? ==>
      r == Some(phone[4..])
    // the text from just after the first "+234" up to the next one, or to the end
    ensures r.Some? ==>
      var i := IndexOf(phone, CountryCode, 0).value;
      var start := i + |CountryCode|;
      && start + |r.value| <= |phone|
      && phone[start..start + |r.value|] == r.value
      && (start + |r.value| == |phone| || OccursAt(phone, CountryCode, start + |r.value|))
  {
    match IndexOf(phone, CountryCode, 0)
    case None => None
    case Some(i) =>
      var rest := phone[i + |CountryCode|..];
      match IndexOf(rest, CountryCode, 0)
      case None => Some(rest)
      case Some(j) =>
        assert forall k :: 0 <= k < j ==> !OccursAt(rest[..j], CountryCode, k) by {
          forall k | 0 <= k < j && OccursAt(rest[..j], CountryCode, k)
            ensures false
          {
            assert rest[..j][k..k + |CountryCode|] == rest[k..k + |CountryCode|];
            assert OccursAt(rest, CountryCode, k);
          }
        }
        assert phone[i + |CountryCode| + j..][..|CountryCode|] == rest[j..j + |CountryCode|];
        Some(rest[..j])
  }

  // ---------------------------------------------------------------- payload

  datatype Phone = Phone(phoneCountryCode: string, phoneNumber: Option<string>)
  datatype PostalAddress = PostalAddress(street: string, city: string, state: string, country: string, postalCode: string)
  /** The body of the customer enrol request. */
  datatype EnrolPayload = EnrolPayload(
    firstName: string,
    lastName: string,
    email: string,
    country: string,
    dob: string,
    phone: Phone,
    address: PostalAddress,
    identificationNumber: string)

  /**
   * The enrol request for a user: the country is "NG" both at top level and in
   * the address whatever the user's own address says, the identification
   * number is the BVN, and the date of birth reads back as the stored one.
   */
  function Payload(u: User): (p: EnrolPayload)
    ensures p.country == Country && p.address.country == Country
    ensures p.identificationNumber == u.bvn && p.email == u.email
    ensures p.address.postalCode == u.address.zipCode && p.address.street == u.address.street
    ensures p.phone.phoneCountryCode == CountryCode
    ensures |u.phoneNumber| >= 4 && u.phoneNumber[..4] == CountryCode && IndexOf(u.phoneNumber[4..], CountryCode, 0).None? ==>
      p.phone.phoneNumber == Some(u.phoneNumber[4..])
    ensures p.phone.phoneNumber == PhoneNumberAfterPrefix(u.phoneNumber)
    ensures p.firstName == u.firstName && p.lastName == u.lastName
    ensures p.address.city == u.address.city && p.address.state == u.address.state
    ensures u.dateOfBirth.month < 12 ==> ParseDob(p.dob) == Some(u.dateOfBirth)
  {
    assert u.dateOfBirth.month < 12 ==> ParseDob(FormatDob(u.dateOfBirth)) == Some(u.dateOfBirth) by {
      if u.dateOfBirth.month < 12 {
        FormatDobRoundTrip(u.dateOfBirth);
      }
    }
    EnrolPayload(
      u.firstName, u.lastName, u.email, Country, FormatDob(u.dateOfBirth),
      Phone(CountryCode, PhoneNumberAfterPrefix(u.phoneNumber)),
      PostalAddress(u.address.street, u.address.city, u.address.state, Country, u.address.zipCode),
      u.bvn)
  }

  // ---------------------------------------------------------------- enrolment

  /** What the enrol call gave back: the customer id and tier, or a failure. */
  datatype EnrolReply = Enrolled(id: string, tier: int) | EnrolFailed(message: string)

  /**
   * `createUserAccountOnMaplerad`: an unknown user fails before any request
   * is sent; otherwise the payload is sent, and on success exactly one
   * account record is stored and the result is true, while any failure of the
   * call becomes a plain error and stores nothing.
   */
  method CreateUserAccountOnMaplerad(s: Store, userId: string, reply: EnrolReply)
    returns (sent: Option<EnrolPayload>, r: Result<bool, AppError>)
    modifies s`accounts
    ensures userId !in s.users ==> sent == None && r == Failure(NotFound(UserNotFound))
    ensures userId in s.users ==> sent == Some(Payload(s.users[userId]))
    ensures r.Success? <==> userId in s.users && reply.Enrolled?
    ensures r.Success? ==> r.value && s.accounts == old(s.accounts) + [MapleradAccount(userId, reply.id, reply.tier)]
    ensures userId in s.users && reply.EnrolFailed? ==> r == Failure(Plain(EnrolError))
    ensures r.Failure? ==> s.accounts == old(s.accounts)
  {
    if userId !in s.users {
      return None, Failure(NotFound(UserNotFound));
    }
    sent := Some(Payload(s.users[userId]));
    match reply
    case EnrolFailed(_) =>
      r := Failure(Plain(EnrolError));
    case Enrolled(id, tier) =>
      s.accounts := s.accounts + [MapleradAccount(userId, id, tier)];
      r := Success(true);
  }
}
