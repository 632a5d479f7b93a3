/** Delivery metadata carried in message headers, and the decimal text it is written in.
    The worker and the RabbitMQ consumer each parse these headers on their own; the lemmas
    below show that they agree on which delivery is the last one. */
module DeliveryHeaders {
  import opened Wrappers

  const ATTEMPT_HEADER := "x-delivery-attempt"
  const MAX_ATTEMPTS_HEADER := "x-max-delivery-attempts"

  const MIN_INT: int := -0x8000_0000_0000_0000
  const MAX_INT: int := 0x7fff_ffff_ffff_ffff

  /** A machine integer of the 64-bit platforms the service runs on. */
  type Int64 = x: int | MIN_INT <= x <= MAX_INT

  type Headers = map<string, string>

  // ----- Decimal text -----

  function Digit(d: nat): char
    requires d < 10
  {
    ('0' as int + d) as char
  }

  predicate IsDigit(c: char) {
    '0' <= c <= '9'
  }

  function Digits(n: nat): string {
    if n < 10 then [Digit(n)] else Digits(n / 10) + [Digit(n % 10)]
  }

  function Itoa(i: Int64): string {
    var n: int := i;
    if n < 0 then "-" + Digits(-n) else Digits(n)
  }

  predicate AllDigits(s: string) {
    |s| > 0 && forall i :: 0 <= i < |s| ==> IsDigit(s[i])
  }

  function DigitsValue(s: string): nat
    requires AllDigits(s)
  {
    var last := s[|s| - 1] as int - '0' as int;
    if |s| == 1 then last else 10 * DigitsValue(s[..|s| - 1]) + last
  }

  function InRange(i: int): Option<Int64> {
    if MIN_INT <= i <= MAX_INT then Some(i) else None
  }

  /** One optional sign, then at least one digit, then a range check. */
  function Atoi(s: string): Option<Int64> {
    if s == "" then None
    else
      var signed := s[0] == '-' || s[0] == '+';
      var body := if signed then s[1..] else s;
      if !AllDigits(body) then None
      else
        var magnitude: int := DigitsValue(body);
        InRange(if s[0] == '-' then -magnitude else magnitude)
  }

  lemma {:induction false} DigitsRoundTrip(n: nat)
    ensures AllDigits(Digits(n)) && DigitsValue(Digits(n)) == n
  {
    if n >= 10 {
      DigitsRoundTrip(n / 10);
      var s := Digits(n);
      assert s[..|s| - 1] == Digits(n / 10);
    }
  }

  lemma AtoiReadsItoa(i: Int64)
    ensures Atoi(Itoa(i)) == Some(i)
  {
    var n: int := i;
    DigitsRoundTrip(if n < 0 then -n else n);
    if n < 0 {
      assert Itoa(i)[1..] == Digits(-n);
    } else {
      var s := Digits(i);
      assert IsDigit(s[0]);
    }
  }

  /** An optional sign and at least one digit, and nothing else. */
  ghost predicate IsNumber(s: string) {
    exists digits :: AllDigits(digits) && (s == digits || s == "-" + digits || s == "+" + digits)
  }

  lemma {:induction false} LeadingZero(digits: string)
    requires AllDigits(digits)
    ensures AllDigits("0" + digits) && DigitsValue("0" + digits) == DigitsValue(digits)
  {
    var longer, last := "0" + digits, |digits| - 1;
    assert longer[..|longer| - 1] == "0" + digits[..last] && longer[|longer| - 1] == digits[last];
    if last > 0 {
      LeadingZero(digits[..last]);
    } else {
      assert longer[..1] == "0";
    }
  }

  /** A plus sign and leading zeros do not matter, and a minus sign negates. */
  lemma SignsAndZeros(digits: string)
    requires AllDigits(digits)
    ensures Atoi("+" + digits) == Atoi(digits) && Atoi("0" + digits) == Atoi(digits)
    ensures Atoi(digits).Some? ==> Atoi("-" + digits) == Some(-Atoi(digits).value)
  {
    LeadingZero(digits);
    assert IsDigit(digits[0]);
    assert ("+" + digits)[1..] == digits && ("-" + digits)[1..] == digits;
  }

  // ----- Attempt metadata -----

  function Lookup(headers: Headers, key: string): string {
    if key in headers then headers[key] else ""
  }

  /** The attempt a delivery carries; anything unreadable or not positive counts as the first. */
  function DeliveryAttempt(headers: Headers): (attempt: Int64)
    ensures attempt >= 1
  {
    match Atoi(Lookup(headers, ATTEMPT_HEADER))
    case Some(a) => if a > 0 then a else 1
    case None => 1
  }

  function WithAttempt(headers: Headers, attempt: Int64, maxAttempts: Int64): Headers {
    headers[ATTEMPT_HEADER := Itoa(attempt)][MAX_ATTEMPTS_HEADER := Itoa(maxAttempts)]
  }

  /** What RabbitMQ hands to a handler: the attempt normalised, the maximum overwritten. */
  function DeliveredHeaders(headers: Headers, maxAttempts: Int64): Headers {
    WithAttempt(headers, DeliveryAttempt(headers), maxAttempts)
  }

  /** The worker's own reading of the same headers. */
  predicate IsFinalDelivery(headers: Headers) {
    if headers == map[] then true
    else
      var attempt := Atoi(Lookup(headers, ATTEMPT_HEADER));
      var maxAttempts := Atoi(Lookup(headers, MAX_ATTEMPTS_HEADER));
      if attempt.None? || maxAttempts.None? || attempt.value < 1 || maxAttempts.value < 1 then true
      else attempt.value >= maxAttempts.value
  }

  lemma FinalDeliveryMeaning(headers: Headers, attempt: Int64, maxAttempts: Int64)
    ensures IsFinalDelivery(WithAttempt(headers, attempt, maxAttempts)) <==>
              attempt < 1 || maxAttempts < 1 || attempt >= maxAttempts
    ensures DeliveryAttempt(WithAttempt(headers, attempt, maxAttempts)) == if attempt < 1 then 1 else attempt
  {
    AtoiReadsItoa(attempt);
    AtoiReadsItoa(maxAttempts);
    assert ATTEMPT_HEADER in WithAttempt(headers, attempt, maxAttempts);
    assert ATTEMPT_HEADER[2] != MAX_ATTEMPTS_HEADER[2];
  }

  /** A positive number written under the attempt header is the attempt. A missing header, a number
      below one and a text that is no number (empty, or with anything but digits behind an optional
      sign) count as the first attempt. */
  lemma AttemptMeaning(headers: Headers)
    ensures ATTEMPT_HEADER !in headers ==> DeliveryAttempt(headers) == 1
    ensures forall i: Int64 :: ATTEMPT_HEADER in headers && headers[ATTEMPT_HEADER] == Itoa(i) ==>
              DeliveryAttempt(headers) == if i >= 1 then i else 1
    ensures ATTEMPT_HEADER in headers && !IsNumber(headers[ATTEMPT_HEADER]) ==> DeliveryAttempt(headers) == 1
  {
    forall i: Int64 | ATTEMPT_HEADER in headers && headers[ATTEMPT_HEADER] == Itoa(i)
      ensures DeliveryAttempt(headers) == if i >= 1 then i else 1
    {
      AtoiReadsItoa(i);
    }
  }

  /** A worker that finds no metadata, or none it can read, takes the delivery for the last one. */
  lemma UnreadableIsFinal(headers: Headers)
    ensures ATTEMPT_HEADER !in headers || MAX_ATTEMPTS_HEADER !in headers ==> IsFinalDelivery(headers)
    ensures ATTEMPT_HEADER in headers && !IsNumber(headers[ATTEMPT_HEADER]) ==> IsFinalDelivery(headers)
    ensures MAX_ATTEMPTS_HEADER in headers && !IsNumber(headers[MAX_ATTEMPTS_HEADER]) ==> IsFinalDelivery(headers)
  {
  }

  /** Whatever headers arrive, the worker writes its terminal status on exactly the delivery
      that the consumer will send to the dead-letter exchange if it fails. */
  lemma WorkerAndConsumerAgreeOnLastDelivery(headers: Headers, maxAttempts: Int64)
    requires maxAttempts >= 1
    ensures var delivered := DeliveredHeaders(headers, maxAttempts);
            IsFinalDelivery(delivered) <==> DeliveryAttempt(delivered) >= maxAttempts
    ensures DeliveryAttempt(DeliveredHeaders(headers, maxAttempts)) == DeliveryAttempt(headers)
  {
    FinalDeliveryMeaning(headers, DeliveryAttempt(headers), maxAttempts);
  }
}
