/**
 * The transport-side port check of components/netcat.js and the order of
 * sendToServer: the port is parsed and checked before anything is sent.
 */
module Netcat {
  import opened Wrappers
  import opened Numerals

  const InvalidPort: string := "Invalid port number"

  // ----- parseInt(string) with no radix, as ECMAScript defines it -----

  /** The white-space and line-terminator code points parseInt skips before the number. */
  predicate IsStrWhiteSpace(c: char)
  {
    var n := c as int;
    n == 0x09 || n == 0x0B || n == 0x0C || n == 0x20 || n == 0xA0 || n == 0xFEFF
    || n == 0x1680 || (0x2000 <= n <= 0x200A) || n == 0x202F || n == 0x205F || n == 0x3000
    || n == 0x0A || n == 0x0D || n == 0x2028 || n == 0x2029
  }

  /** `s` without its leading white space. */
  function TrimStart(s: string): (t: string)
    ensures |t| <= |s| && t == s[|s| - |t|..]
    ensures t == [] || !IsStrWhiteSpace(t[0])
    ensures forall k :: 0 <= k < |s| - |t| ==> IsStrWhiteSpace(s[k])
  {
    if s != [] && IsStrWhiteSpace(s[0]) then TrimStart(s[1..]) else s
  }

  /** The length of the longest prefix of `s` made of digits. */
  function DigitRun(s: string, hex: bool): (n: nat)
    ensures n <= |s|
    ensures forall k :: 0 <= k < n ==> IsRadixDigit(s[k], hex)
    ensures n == |s| || !IsRadixDigit(s[n], hex)
  {
    if s != [] && IsRadixDigit(s[0], hex) then 1 + DigitRun(s[1..], hex) else 0
  }

  /** `0x` or `0X` at the front: parseInt then reads base 16. */
  predicate HasHexPrefix(u: string)
  {
    |u| >= 2 && u[0] == '0' && (u[1] == 'x' || u[1] == 'X')
  }

  /** The unsigned part of parseInt: the base prefix, then the longest run of digits; None when there is none. */
  function ParseUnsigned(u: string): (r: Option<nat>)
    ensures r.Some? ==> u != [] && IsDecimalDigit(u[0])
    ensures u != [] && IsDecimalDigit(u[0]) && !HasHexPrefix(u) ==> r.Some?
  {
    var hex := HasHexPrefix(u);
    var body := if hex then u[2..] else u;
    var n := DigitRun(body, hex);
    if n == 0 then None else Some(DigitsValue(body[..n], hex))
  }

  /**
   * `parseInt(s)`: skip leading white space, take one sign, then read the
   * unsigned part. None is NaN: no digit was found.
   */
  function ParseInt(s: string): (r: Option<int>)
    ensures r.Some? ==> exists k :: 0 <= k < |s| && IsDecimalDigit(s[k])
  {
    var t := TrimStart(s);
    var negative := t != [] && t[0] == '-';
    var u := if t != [] && (t[0] == '-' || t[0] == '+') then t[1..] else t;
    assert u == s[|s| - |u|..];
    match ParseUnsigned(u)
    case None => None
    case Some(v) =>
      var value: int := if negative then -(v as int) else v;
      Some(value)
  }

  /**
   * validatePort: the parsed port when it is a non-negative integer; the
   * thrown `Invalid port number` error for NaN or a negative value.
   */
  function ValidatePort(port: string): (r: Result<int, string>)
    ensures r.Success? <==> ParseInt(port).Some? && ParseInt(port).value >= 0
    ensures r.Success? ==> r.value == ParseInt(port).value
    ensures r.Failure? ==> r.error == InvalidPort
  {
    match ParseInt(port)
    case None => Failure(InvalidPort)
    case Some(n) => if n < 0 then Failure(InvalidPort) else Success(n)
  }

  // ----- How JavaScript writes an integer as a string -----

  function DigitChar(d: nat): (c: char)
    requires d < 10
    ensures IsDecimalDigit(c) && DigitValue(c, false) == d
  {
    ('0' as int + d) as char
  }

  /** The decimal numeral of `n`, without leading zeros. */
  function DecimalString(n: nat): string
  {
    if n < 10 then [DigitChar(n)] else DecimalString(n / 10) + [DigitChar(n % 10)]
  }

  /** `String(n)` for an integer `n` below 10^21 in magnitude, where JavaScript writes plain digits. */
  function NumberString(n: int): string
  {
    if n < 0 then "-" + DecimalString(-n) else DecimalString(n)
  }

  /** The numeral of `n` is a non-empty digit string with no leading zero whose value is `n`. */
  lemma {:induction false} DecimalStringFacts(n: nat)
    ensures |DecimalString(n)| >= 1 && AllRadixDigits(DecimalString(n), false)
    ensures DigitsValue(DecimalString(n), false) == n
    ensures |DecimalString(n)| >= 2 ==> DecimalString(n)[0] != '0'
  {
    if n >= 10 {
      DecimalStringFacts(n / 10);
      var d := DecimalString(n);
      var p := DecimalString(n / 10);
      assert d == p + [DigitChar(n % 10)];
      assert d[..|d| - 1] == p;
      assert d[0] == p[0];
      if |p| == 1 {
        assert p[0] == DigitChar(n / 10);
      }
    }
  }

  /** Reading the digits of a string that already starts without white space. */
  lemma TrimStartNoSpace(s: string)
    requires s != [] && !IsStrWhiteSpace(s[0])
    ensures TrimStart(s) == s
  {
  }

  /** The unsigned part read from a decimal digit string followed by a non-digit. */
  lemma ParseUnsignedDecimal(z: string, rest: string)
    requires |z| >= 1 && AllRadixDigits(z, false)
    requires !HasHexPrefix(z + rest)
    requires rest == [] || !IsDecimalDigit(rest[0])
    ensures ParseUnsigned(z + rest) == Some(DigitsValue(z, false))
  {
    DigitRunOfPrefix(z, rest, false);
    assert (z + rest)[..|z|] == z;
  }

  /** A string that starts with neither white space nor a sign is read by the unsigned part alone. */
  lemma ParseIntUnsigned(s: string)
    requires s != [] && !IsStrWhiteSpace(s[0]) && s[0] != '-' && s[0] != '+'
    ensures ParseInt(s) == ParseUnsigned(s)
  {
  }

  /** String(n) writes plain decimal digits only for magnitudes below 10^21. */
  const PlainNumberLimit: int := 1_000_000_000_000_000_000_000

  /** parseInt reads back every integer JavaScript writes in plain digits. */
  lemma ParseIntOfNumberString(n: int)
    requires -PlainNumberLimit < n < PlainNumberLimit
    ensures ParseInt(NumberString(n)) == Some(n)
  {
    var m := if n < 0 then -n else n;
    DecimalStringFacts(m);
    var d := DecimalString(m);
    assert d + [] == d;
    assert IsDecimalDigit(d[0]);
    ParseUnsignedDecimal(d, []);
    if n < 0 {
      var s := "-" + d;
      TrimStartNoSpace(s);
      assert s[1..] == d;
    } else {
      ParseIntUnsigned(d);
    }
  }

  /** Every non-negative integer written in plain digits is accepted unchanged, however large; every negative one is refused. */
  lemma ValidatePortOfInteger(n: int)
    requires -PlainNumberLimit < n < PlainNumberLimit
    ensures ValidatePort(NumberString(n)) == if n >= 0 then Success(n) else Failure(InvalidPort)
  {
    ParseIntOfNumberString(n);
  }

  /** Validating an already validated port gives the same port. */
  lemma ValidatePortIdempotent(port: string)
    requires ValidatePort(port).Success? && ValidatePort(port).value < PlainNumberLimit
    ensures ValidatePort(NumberString(ValidatePort(port).value)) == ValidatePort(port)
  {
    ValidatePortOfInteger(ValidatePort(port).value);
  }

  /** Input with no decimal digit parses to NaN and is refused. */
  lemma NoDigitRejected(port: string)
    requires forall k :: 0 <= k < |port| ==> !IsDecimalDigit(port[k])
    ensures ValidatePort(port) == Failure(InvalidPort)
  {
  }

  /** Whatever follows the digits is ignored: "8080abc" passes as port 8080. */
  lemma TrailingTextIgnored(z: string, rest: string)
    requires |z| >= 1 && AllRadixDigits(z, false)
    requires z[0] != '0' || |z| >= 2
    requires rest == [] || !IsDecimalDigit(rest[0])
    ensures ValidatePort(z + rest) == Success(DigitsValue(z, false))
  {
    var s := z + rest;
    assert s[0] == z[0];
    assert |z| >= 2 ==> s[1] == z[1];
    ParseIntUnsigned(s);
    ParseUnsignedDecimal(z, rest);
  }

  /** A `0x` prefix switches to base 16: "0x1F" passes as port 31. */
  lemma HexadecimalAccepted(h: string)
    requires |h| >= 1 && AllRadixDigits(h, true)
    ensures ValidatePort("0x" + h) == Success(DigitsValue(h, true))
  {
    var s := "0x" + h;
    ParseIntUnsigned(s);
    assert s[2..] == h + [];
    DigitRunOfPrefix(h, [], true);
    assert h[..|h|] == h;
  }

  lemma {:induction false} DigitRunOfPrefix(z: string, rest: string, hex: bool)
    requires AllRadixDigits(z, hex)
    requires rest == [] || !IsRadixDigit(rest[0], hex)
    ensures DigitRun(z + rest, hex) == |z|
    decreases |z|
  {
    if z == [] {
      assert z + rest == rest;
    } else {
      assert (z + rest)[1..] == z[1..] + rest;
      DigitRunOfPrefix(z[1..], rest, hex);
    }
  }

  // ----- Sending -----

  /** One payload handed to the transport, with the address and port it goes to. */
  datatype Packet = Packet(addr: string, port: int, data: string)

  /** The network as sendToServer reaches it: the packets handed to it so far, in order. */
  class Network {
    var sent: seq<Packet>

    constructor ()
      ensures sent == []
    {
      sent := [];
    }

    /** Connect to `p.addr`:`p.port` and send `p.data`. */
    method Send(p: Packet)
      modifies this
      ensures sent == old(sent) + [p]
    {
      sent := sent + [p];
    }
  }

  /**
   * sendToServer: the port is validated first. An invalid port is thrown
   * before any client exists, so nothing is sent; a valid one is sent to
   * with the parsed port, not the raw argument.
   */
  method SendToServer(net: Network, addr: string, port: string, data: string) returns (r: Result<(), string>)
    modifies net
    ensures r.Failure? <==> ValidatePort(port).Failure?
    ensures r.Failure? ==> r.error == InvalidPort && net.sent == old(net.sent)
    ensures r.Success? ==> net.sent == old(net.sent) + [Packet(addr, ValidatePort(port).value, data)]
  {
    var checked := ValidatePort(port);
    if checked.Failure? {
      return Failure(checked.error);
    }
    net.Send(Packet(addr, checked.value, data));
    r := Success(());
  }
}
