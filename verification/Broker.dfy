/** The one-shot direct broker (direct_broker.rs): the parent prints the request on
    the command line, the child recognises and decodes it before anything else. */
module Broker {
  import opened Options
  import opened Text
  import opened Bytes
  import opened CommandLine

  const BROKER_ARG: string := "--helm-direct-broker"
  const BROKER_TOKEN_BYTES := 32
  const U16_MAX := 0xFFFF
  const U32_MAX := 0xFFFF_FFFF

  // ------------------------------------------------------- decimal and hexadecimal

  const DIGITS: string := "0123456789abcdef"

  function Decimal(n: nat): string {
    if n < 10 then [DIGITS[n]] else Decimal(n / 10) + [DIGITS[n % 10]]
  }

  function DigitValue(c: char): Option<nat> {
    if '0' <= c <= '9' then Some(c as int - '0' as int) else None
  }

  /** The number a non-empty run of decimal digits denotes. */
  function DigitsValue(s: string): Option<nat> {
    if s == "" then None
    else
      var last := DigitValue(s[|s| - 1]);
      if last.None? then None
      else if |s| == 1 then last
      else
        var high := DigitsValue(s[..|s| - 1]);
        if high.None? then None else Some(10 * high.value + last.value)
  }

  /** `str::parse` of an unsigned integer with the given largest value. */
  function ParseUnsigned(s: string, max: nat): Option<nat> {
    var digits := if s != "" && s[0] == '+' then s[1..] else s;
    var value := DigitsValue(digits);
    if value.Some? && value.value <= max then value else None
  }

  function HexValue(c: char): Option<nat> {
    if '0' <= c <= '9' then Some(c as int - '0' as int)
    else if 'a' <= c <= 'f' then Some(c as int - 'a' as int + 10)
    else if 'A' <= c <= 'F' then Some(c as int - 'A' as int + 10)
    else None
  }

  /** `hex::encode`. */
  function HexEncode(bytes: seq<Byte>): string {
    if bytes == [] then ""
    else [DIGITS[bytes[0] / 16], DIGITS[bytes[0] % 16]] + HexEncode(bytes[1..])
  }

  /** `hex::decode`. */
  function HexDecode(s: string): Option<seq<Byte>> {
    if s == "" then Some([])
    else if |s| == 1 then None
    else
      var high, low, rest := HexValue(s[0]), HexValue(s[1]), HexDecode(s[2..]);
      if high.None? || low.None? || rest.None? then None
      else Some([16 * high.value + low.value] + rest.value)
  }

  lemma DigitText(d: nat)
    requires d < 16
    ensures HexValue(DIGITS[d]) == Some(d)
    ensures d < 10 ==> DigitValue(DIGITS[d]) == Some(d)
    ensures DIGITS[d] != NUL && DIGITS[d] != '+'
  {
    assert DIGITS[d] == if d < 10 then (d + '0' as int) as char else (d - 10 + 'a' as int) as char;
  }

  lemma {:induction false} DecimalRoundTrip(n: nat, max: nat)
    requires n <= max
    ensures ParseUnsigned(Decimal(n), max) == Some(n)
    ensures NoNul(Decimal(n))
  {
    DecimalValue(n);
  }

  lemma {:induction false} DecimalValue(n: nat)
    ensures Decimal(n) != "" && Decimal(n)[0] != '+'
    ensures DigitsValue(Decimal(n)) == Some(n)
    ensures NoNul(Decimal(n))
  {
    DigitText(n % 10);
    if n >= 10 {
      DecimalValue(n / 10);
      var s := Decimal(n);
      assert s[..|s| - 1] == Decimal(n / 10);
      assert s[|s| - 1] == DIGITS[n % 10];
    }
  }

  lemma HexPair(b: Byte, text: string, rest: seq<Byte>)
    requires HexDecode(text) == Some(rest)
    ensures HexDecode([DIGITS[b / 16], DIGITS[b % 16]] + text) == Some([b] + rest)
  {
    DigitText(b / 16);
    DigitText(b % 16);
    var s := [DIGITS[b / 16], DIGITS[b % 16]] + text;
    assert s[2..] == text;
    assert 16 * (b / 16) + b % 16 == b;
  }

  lemma {:induction false} HexRoundTrip(bytes: seq<Byte>)
    ensures HexDecode(HexEncode(bytes)) == Some(bytes)
  {
    if bytes != [] {
      HexRoundTrip(bytes[1..]);
      HexPair(bytes[0], HexEncode(bytes[1..]), bytes[1..]);
      assert [bytes[0]] + bytes[1..] == bytes;
    }
  }

  lemma {:induction false} HexWithoutNul(bytes: seq<Byte>)
    ensures NoNul(HexEncode(bytes))
  {
    if bytes != [] {
      DigitText(bytes[0] / 16);
      DigitText(bytes[0] % 16);
      HexWithoutNul(bytes[1..]);
    }
  }

  // -------------------------------------------------------------------- the request

  datatype Request = Request(callbackPort: nat, targetPort: nat, processId: nat, token: seq<Byte>, host: string)

  predicate Representable(request: Request) {
    && request.callbackPort <= U16_MAX
    && request.targetPort <= U16_MAX
    && request.processId <= U32_MAX
    && |request.token| == BROKER_TOKEN_BYTES
  }

  /** The arguments `spawn_broker` passes. */
  function BrokerArguments(request: Request): seq<string> {
    [ BROKER_ARG,
      Decimal(request.callbackPort),
      Decimal(request.targetPort),
      Decimal(request.processId),
      HexEncode(request.token),
      request.host ]
  }

  /** `NotRequested`: the process starts normally.  `Ignored`: it exits at once. */
  datatype BrokerStart = NotRequested | Ignored | Run(request: Request)

  /** `run_from_args_if_requested`. */
  function RunFromArguments(argv: seq<string>): BrokerStart {
    if |argv| < 2 || argv[1] != BROKER_ARG then NotRequested
    else if |argv| < 7 then Ignored
    else
      var callbackPort := ParseUnsigned(argv[2], U16_MAX);
      var targetPort := ParseUnsigned(argv[3], U16_MAX);
      var processId := ParseUnsigned(argv[4], U32_MAX);
      var token := HexDecode(argv[5]);
      if callbackPort.None? || targetPort.None? || processId.None? || token.None? then Ignored
      else if |token.value| != BROKER_TOKEN_BYTES || Trim(argv[6]) == "" then Ignored
      else Run(Request(callbackPort.value, targetPort.value, processId.value, token.value, argv[6]))
  }

  lemma DecodedArguments(program: string, request: Request)
    requires Representable(request)
    ensures RunFromArguments([program] + BrokerArguments(request)) ==
            if Trim(request.host) == "" then Ignored else Run(request)
  {
    DecimalRoundTrip(request.callbackPort, U16_MAX);
    DecimalRoundTrip(request.targetPort, U16_MAX);
    DecimalRoundTrip(request.processId, U32_MAX);
    HexRoundTrip(request.token);
  }

  lemma CleanArguments(request: Request)
    requires NoNul(request.host)
    ensures forall a :: a in BrokerArguments(request) ==> NoNul(a)
  {
    DecimalValue(request.callbackPort);
    DecimalValue(request.targetPort);
    DecimalValue(request.processId);
    HexWithoutNul(request.token);
  }

  /** The child runs exactly the request its parent printed, ports, process id, token
      and host, if and only if the host is not blank and holds no NUL. */
  lemma BrokerRecoversRequest(program: string, request: Request)
    requires QUOTE !in program && NoNul(program) && Representable(request)
    ensures RunFromArguments(Received(program, BrokerArguments(request))) == Run(request) <==>
            NoNul(request.host) && Trim(request.host) != ""
  {
    var args := BrokerArguments(request);
    if NoNul(request.host) {
      CleanArguments(request);
      ReceivedWithoutNul(program, args);
      DecodedArguments(program + Slashes(ExtraSlashes(program)), request);
    } else {
      CStringOf(CommandLineFor(program, args));
      ParseCommandLineNoNul(AsCString(CommandLineFor(program, args)));
    }
  }
}
