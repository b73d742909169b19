/** Message-text helpers: PII redaction, username anonymisation and the
    timezone-naive cutoff comparison used by the context buffer's prune. */
module Helpers {
  import opened Wrappers
  import opened Text

  /** `sanitize_message`: empty text is returned as it is; any other text goes
      through the chain of regular-expression redactions, which this model
      takes as the parameter `redact`. */
  function SanitizeMessage(text: string, redact: string -> string): (r: string)
    ensures text == "" ==> r == text
    ensures text != "" ==> r == redact(text)
  {
    if text == "" then text else redact(text)
  }

  /** Decimal renderings of numbers below 1000 have at most three digits. */
  lemma ShortDecimal(n: nat)
    requires n < 1000
    ensures |NatToString(n)| <= 3
  {
    if n >= 10 {
      assert n / 10 < 100;
      if n / 10 >= 10 {
        assert (n / 10) / 10 < 10;
      }
    }
  }

  /** `anonymize_username(username, anonymize_usernames)`. `nameHash` stands for
      Python's per-process salted `hash()` on strings. */
  function AnonymizeUsername(username: Option<string>, anonymize: bool, nameHash: string -> int): (r: Option<string>)
    ensures !anonymize ==> r == username
    ensures anonymize ==> r.Some? && 4 <= |r.value| <= 8 && r.value[..4] == "User"
    ensures anonymize && (username.None? || username.value == "" || username.value == "Unknown")
            ==> r == Some("User")
    ensures anonymize && username.Some? && username.value != "" && username.value != "Unknown"
            ==> 6 <= |r.value| && r.value[..5] == "User_" && AllDigits(r.value[5..])
                && DigitsValue(r.value[5..]) < 1000
  {
    if !anonymize then username
    else if username.None? || username.value == "" || username.value == "Unknown" then Some("User")
    else
      var h := nameHash(username.value);
      var n := (if h < 0 then -h else h) % 1000;
      ShortDecimal(n);
      DigitsValueOfNatToString(n);
      assert ("User_" + NatToString(n))[5..] == NatToString(n);
      Some("User_" + NatToString(n))
  }

  /** What the cutoff comparison may be handed: a naive datetime (its wall-clock
      reading in seconds), an aware one (wall-clock reading and UTC offset in
      seconds) or a value that is not a datetime at all. */
  datatype Stamp = Naive(wall: int) | Aware(wall: int, utcOffset: int) | NotADateTime

  /** `compare_datetime_with_cutoff(timestamp, cutoff)` against a naive cutoff.
      An aware timestamp loses its tzinfo without being converted, so its
      wall-clock reading is what is compared; anything that makes Python
      raise (a value that is not a datetime) gives false. */
  function CompareDatetimeWithCutoff(timestamp: Stamp, cutoff: int): (r: bool)
    ensures r <==> !timestamp.NotADateTime? && timestamp.wall > cutoff
  {
    match timestamp
    case Naive(wall) => wall > cutoff
    case Aware(wall, _) => wall > cutoff
    case NotADateTime => false
  }

  /** The comparison is not the one on UTC instants: an aware timestamp whose
      UTC instant `wall - utcOffset` is not after the cutoff still passes when
      its wall-clock reading is, and one whose instant is after the cutoff is
      rejected when its reading is not. */
  lemma OffsetIgnored(wall: int, utcOffset: int, cutoff: int)
    ensures CompareDatetimeWithCutoff(Aware(wall, utcOffset), cutoff)
            == CompareDatetimeWithCutoff(Naive(wall), cutoff)
    ensures utcOffset > 0 && wall - utcOffset <= cutoff < wall
            ==> CompareDatetimeWithCutoff(Aware(wall, utcOffset), cutoff)
    ensures utcOffset < 0 && wall <= cutoff < wall - utcOffset
            ==> !CompareDatetimeWithCutoff(Aware(wall, utcOffset), cutoff)
  {
  }
}
