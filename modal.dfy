/**
 * The forward-rule form (components/Modal.tsx): the address check built from
 * two regular expressions, the port range check, and the submit decision that
 * either records the four error messages or hands a rule to the caller.
 */
module Modal {
  import opened Wrappers
  import opened Lib
  import DotLabels
  import opened Numerals

  const AddressError: string := "無効なアドレス形式です。"
  const PortError: string := "ポート番号は0から49151の範囲で指定してください。"

  predicate IsZeroOrOne(c: char) { c == '0' || c == '1' }

  /** `[A-Za-z0-9-]`: the characters a hostname label may hold. */
  predicate IsLabelChar(c: char)
  {
    ('A' <= c <= 'Z') || ('a' <= c <= 'z') || IsDecimalDigit(c) || c == '-'
  }

  // ----- The dotted-quad pattern -----

  /**
   * One group of the dotted-quad pattern, `25[0-5]|2[0-4][0-9]|[01]?[0-9][0-9]?`,
   * alternative by alternative; the last alternative is written out for each
   * choice of its two optional parts.
   */
  function OctetPattern(o: string): (b: bool)
    ensures b ==> 1 <= |o| <= 3 && AllRadixDigits(o, false)
  {
    (|o| == 3 && o[0] == '2' && o[1] == '5' && '0' <= o[2] <= '5')
    || (|o| == 3 && o[0] == '2' && '0' <= o[1] <= '4' && IsDecimalDigit(o[2]))
    || (|o| == 1 && IsDecimalDigit(o[0]))
    || (|o| == 2 && IsDecimalDigit(o[0]) && IsDecimalDigit(o[1]))
    || (|o| == 2 && IsZeroOrOne(o[0]) && IsDecimalDigit(o[1]))
    || (|o| == 3 && IsZeroOrOne(o[0]) && IsDecimalDigit(o[1]) && IsDecimalDigit(o[2]))
  }

  /** An octet of dotted-decimal notation: one to three digits, leading zeros allowed, value at most 255. */
  predicate DecimalOctet(o: string)
  {
    1 <= |o| <= 3 && AllRadixDigits(o, false) && DigitsValue(o, false) <= 255
  }

  /** The four-dot-separated groups of `^(…)\.(…)\.(…)\.(…)$`, read on the labels of `s`. */
  function Ipv4Pattern(s: string): (b: bool)
    ensures b ==> IsDottedQuad(s)
  {
    var ls := DotLabels.Split(s);
    DotLabels.JoinSplit(s);
    if |ls| == 4 && forall i :: 0 <= i < 4 ==> OctetPattern(ls[i]) then
      OctetGroupsAreDottedQuad(s, ls);
      true
    else
      false
  }

  // ----- The hostname pattern -----

  /** A run of `min` to 63 characters of `[A-Za-z0-9-]`. */
  predicate LabelOf(l: string, min: nat)
  {
    min <= |l| <= 63 && forall k :: 0 <= k < |l| ==> IsLabelChar(l[k])
  }

  /** The first label, `(?!-)[A-Za-z0-9-]{1,63}(?<!-)`: no hyphen at either end. */
  predicate FirstLabel(l: string)
  {
    LabelOf(l, 1) && l[0] != '-' && l[|l| - 1] != '-'
  }

  /**
   * The labels of `^(?!-)[A-Za-z0-9-]{1,63}(?<!-)(\.[A-Za-z0-9-]{1,63})(\.[A-Za-z0-9-]{2,63})*$`:
   * a first label, a second label of 1 to 63 characters, and any number of
   * further labels of 2 to 63 characters.
   */
  predicate HostnameLabels(ls: seq<string>)
  {
    |ls| >= 2 && FirstLabel(ls[0]) && LabelOf(ls[1], 1)
    && forall i :: 2 <= i < |ls| ==> LabelOf(ls[i], 2)
  }

  function HostnamePattern(s: string): (b: bool)
    ensures b ==> IsPatternHostname(s)
  {
    DotLabels.JoinSplit(s);
    HostnameLabels(DotLabels.Split(s))
  }

  /** validateAddress: the empty message for an accepted address, the fixed error message otherwise. */
  function ValidateAddress(address: string): (r: string)
    ensures r == "" || r == AddressError
    ensures address == "" ==> r == ""
  {
    if Ipv4Pattern(address) then ""
    else if HostnamePattern(address) || address == "" then ""
    else AddressError
  }

  // ----- The languages the two patterns describe -----

  /** `s` is four decimal octets written with dots between them. */
  ghost predicate IsDottedQuad(s: string)
  {
    exists ls: seq<string> :: |ls| == 4 && s == DotLabels.Join(ls)
      && forall i :: 0 <= i < 4 ==> DecimalOctet(ls[i])
  }

  /** `s` is a sequence of hostname labels, as the hostname pattern orders them, written with dots between them. */
  ghost predicate IsPatternHostname(s: string)
  {
    exists ls: seq<string> :: HostnameLabels(ls) && s == DotLabels.Join(ls)
  }

  /** The addresses the form accepts: a dotted quad, a hostname, or nothing at all. */
  ghost predicate AcceptableAddress(s: string)
  {
    IsDottedQuad(s) || IsPatternHostname(s) || s == ""
  }

  lemma OctetPatternMeaning(o: string)
    ensures OctetPattern(o) <==> DecimalOctet(o)
  {
    if 1 <= |o| <= 3 && AllRadixDigits(o, false) {
      assert o[..|o|][..0] == [];
      if |o| == 1 {
        assert o[..0] == [];
        assert DigitsValue(o, false) == o[0] as int - '0' as int;
      } else if |o| == 2 {
        assert o[..1][..0] == [];
        assert DigitsValue(o[..1], false) == o[0] as int - '0' as int;
        assert DigitsValue(o, false) == (o[0] as int - '0' as int) * 10 + (o[1] as int - '0' as int);
      } else {
        assert o[..2][..1] == o[..1];
        assert o[..1][..0] == [];
        assert DigitsValue(o[..1], false) == o[0] as int - '0' as int;
        assert DigitsValue(o[..2], false) == (o[0] as int - '0' as int) * 10 + (o[1] as int - '0' as int);
        assert DigitsValue(o, false) == ((o[0] as int - '0' as int) * 10 + (o[1] as int - '0' as int)) * 10
          + (o[2] as int - '0' as int);
      }
    }
  }

  /** Four octet groups with dots between them form a dotted quad. */
  lemma OctetGroupsAreDottedQuad(s: string, ls: seq<string>)
    requires |ls| == 4 && s == DotLabels.Join(ls)
    requires forall i :: 0 <= i < 4 ==> OctetPattern(ls[i])
    ensures IsDottedQuad(s)
  {
    forall i | 0 <= i < 4 ensures DecimalOctet(ls[i]) {
      OctetPatternMeaning(ls[i]);
    }
  }

  lemma DecimalOctetDotFree(o: string)
    requires DecimalOctet(o)
    ensures DotLabels.DotFree(o)
  {
  }

  lemma LabelDotFree(l: string, min: nat)
    requires LabelOf(l, min)
    ensures DotLabels.DotFree(l)
  {
  }

  /** The dotted-quad pattern accepts exactly the dotted quads. */
  lemma Ipv4PatternMeaning(s: string)
    ensures Ipv4Pattern(s) <==> IsDottedQuad(s)
  {
    if IsDottedQuad(s) {
      var qs: seq<string> :| |qs| == 4 && s == DotLabels.Join(qs)
        && forall i :: 0 <= i < 4 ==> DecimalOctet(qs[i]);
      forall i | 0 <= i < 4 ensures DotLabels.DotFree(qs[i]) && OctetPattern(qs[i]) {
        DecimalOctetDotFree(qs[i]);
        OctetPatternMeaning(qs[i]);
      }
      DotLabels.SplitJoin(qs);
    }
  }

  /** The hostname pattern accepts exactly the strings made of hostname labels. */
  lemma HostnamePatternMeaning(s: string)
    ensures HostnamePattern(s) <==> IsPatternHostname(s)
  {
    if IsPatternHostname(s) {
      var ls: seq<string> :| HostnameLabels(ls) && s == DotLabels.Join(ls);
      forall i | 0 <= i < |ls| ensures DotLabels.DotFree(ls[i]) {
        LabelDotFree(ls[i], if i < 2 then 1 else 2);
      }
      DotLabels.SplitJoin(ls);
    }
  }

  /** validateAddress accepts exactly the dotted quads, the pattern hostnames and the empty string. */
  lemma ValidateAddressMeaning(s: string)
    ensures ValidateAddress(s) == "" <==> AcceptableAddress(s)
  {
    Ipv4PatternMeaning(s);
    HostnamePatternMeaning(s);
  }

  /** Every dotted quad is accepted; leading zeros are allowed ("001.02.3.255"). */
  lemma DottedQuadAccepted(a: string, b: string, c: string, d: string)
    requires DecimalOctet(a) && DecimalOctet(b) && DecimalOctet(c) && DecimalOctet(d)
    ensures ValidateAddress(a + "." + b + "." + c + "." + d) == ""
  {
    var ls := [a, b, c, d];
    assert DotLabels.Join(ls[2..]) == c + "." + d;
    assert DotLabels.Join(ls[1..]) == b + "." + (c + "." + d);
    assert DotLabels.Join(ls) == a + "." + b + "." + c + "." + d;
    assert forall i :: 0 <= i < 4 ==> DecimalOctet(ls[i]);
    assert IsDottedQuad(a + "." + b + "." + c + "." + d);
    Ipv4PatternMeaning(a + "." + b + "." + c + "." + d);
  }

  /** A non-empty string without a dot is rejected: both patterns need a dot. */
  lemma SingleLabelRejected(s: string)
    requires s != "" && DotLabels.DotFree(s)
    ensures ValidateAddress(s) == AddressError
  {
    DotLabels.SplitJoin([s]);
  }

  lemma LocalhostRejected()
    ensures ValidateAddress("localhost") == AddressError
  {
    SingleLabelRejected("localhost");
  }

  /** validateAddress decided on the dot-free labels an address is written with. */
  lemma ValidateAddressOfLabels(ls: seq<string>)
    requires |ls| >= 1 && DotLabels.AllDotFree(ls)
    ensures ValidateAddress(DotLabels.Join(ls)) ==
      if (|ls| == 4 && forall i :: 0 <= i < 4 ==> OctetPattern(ls[i])) || HostnameLabels(ls) || DotLabels.Join(ls) == ""
      then "" else AddressError
  {
    DotLabels.SplitJoin(ls);
  }

  /** The labels after the second need two characters: "a.b.cd" passes, "a.b.c" does not. */
  lemma ThirdLabelNeedsTwoChars()
    ensures ValidateAddress("a.b.cd") == ""
    ensures ValidateAddress("a.b.c") == AddressError
  {
    var good := ["a", "b", "cd"];
    assert DotLabels.Join(good[1..]) == "b.cd";
    assert DotLabels.Join(good) == "a.b.cd";
    ValidateAddressOfLabels(good);
    var bad := ["a", "b", "c"];
    assert DotLabels.Join(bad[1..]) == "b.c";
    assert DotLabels.Join(bad) == "a.b.c";
    ValidateAddressOfLabels(bad);
    assert !LabelOf(bad[2], 2);
  }

  /** A string that is not a dotted quad may still pass as a hostname: "999.1.11.11" does. */
  lemma NumericHostnameAccepted()
    ensures !Ipv4Pattern("999.1.11.11") && HostnamePattern("999.1.11.11")
    ensures ValidateAddress("999.1.11.11") == ""
  {
    var good := ["999", "1", "11", "11"];
    assert DotLabels.Join(good[2..]) == "11.11";
    assert DotLabels.Join(good[1..]) == "1.11.11";
    assert DotLabels.Join(good) == "999.1.11.11";
    assert HostnameLabels(good) by {
      assert FirstLabel(good[0]) && LabelOf(good[1], 1);
      assert LabelOf(good[2], 2) && LabelOf(good[3], 2);
    }
    DotLabels.SplitJoin(good);
    assert !OctetPattern(good[0]);
    ValidateAddressOfLabels(good);
  }

  /** "999.1.1.1" is neither a dotted quad nor, with its one-character third label, a pattern hostname. */
  lemma NumericHostnameRejected()
    ensures ValidateAddress("999.1.1.1") == AddressError
  {
    var bad := ["999", "1", "1", "1"];
    assert DotLabels.Join(bad[2..]) == "1.1";
    assert DotLabels.Join(bad[1..]) == "1.1.1";
    assert DotLabels.Join(bad) == "999.1.1.1";
    assert !OctetPattern(bad[0]);
    assert !LabelOf(bad[2], 2);
    ValidateAddressOfLabels(bad);
  }

  // ----- Ports -----

  /** A port field: left blank (`''`) or holding an integer. */
  datatype FormPort = Blank | Entered(n: int)

  /** System Ports, section 6 of RFC 6335. */
  predicate SystemPort(n: int) { 0 <= n <= 1023 }

  /** User Ports, section 6 of RFC 6335. */
  predicate UserPort(n: int) { 1024 <= n <= 49151 }

  /** validatePort: a blank field or a system or user port passes; anything else gets the range message. */
  function ValidatePort(port: FormPort): (r: string)
    ensures r == "" || r == PortError
    ensures r == "" <==> (port.Blank? || SystemPort(port.n) || UserPort(port.n))
  {
    if port.Blank? || (port.n >= 0 && port.n <= 49151) then "" else PortError
  }

  // ----- Submitting the form -----

  /** The five form fields as handleSubmit reads them. */
  datatype Form = Form(protocol: string, srcAddr: string, srcPort: FormPort, distAddr: string, distPort: FormPort)

  /** The four messages shown under the fields; `""` means no error. */
  datatype FieldErrors = FieldErrors(srcAddr: string, srcPort: string, distAddr: string, distPort: string)

  const NoErrors := FieldErrors("", "", "", "")

  /** What handleSubmit does: record the messages, or pass a rule to `onSubmit` (and close). */
  datatype Outcome = Rejected(errors: FieldErrors) | Submitted(rule: ForwardRule)

  /** A port as the submitted rule carries it: the entered number, or parseInt('', 10), which is NaN. */
  function PortNumber(p: FormPort): (n: Number)
    ensures p.Entered? ==> n == Int(p.n)
    ensures p.Blank? ==> n == NaN
  {
    match p
    case Entered(k) => Int(k)
    case Blank => NaN
  }

  function Errors(f: Form): FieldErrors
  {
    FieldErrors(ValidateAddress(f.srcAddr), ValidatePort(f.srcPort), ValidateAddress(f.distAddr), ValidatePort(f.distPort))
  }

  /** The submit decision: reject when any check fails, else build the rule from the fields. */
  function Decide(f: Form): (o: Outcome)
    ensures o.Rejected? ==> o.errors == Errors(f) && o.errors != NoErrors
    ensures o.Submitted? ==> Errors(f) == NoErrors
    ensures o.Submitted? ==>
      (o.rule.protocol == f.protocol && o.rule.srcAddr == f.srcAddr && o.rule.distAddr == f.distAddr
       && o.rule.srcPort == PortNumber(f.srcPort) && o.rule.distPort == PortNumber(f.distPort))
  {
    var e := Errors(f);
    if e.srcAddr != "" || e.srcPort != "" || e.distAddr != "" || e.distPort != "" then Rejected(e)
    else Submitted(ForwardRule(f.protocol, f.srcAddr, PortNumber(f.srcPort), f.distAddr, PortNumber(f.distPort)))
  }

  ghost predicate AcceptablePort(p: FormPort)
  {
    p.Blank? || SystemPort(p.n) || UserPort(p.n)
  }

  /** The form is submitted exactly when both addresses and both ports are acceptable. */
  lemma DecideSubmitsExactlyValidForms(f: Form)
    ensures Decide(f).Submitted? <==>
      AcceptableAddress(f.srcAddr) && AcceptablePort(f.srcPort)
      && AcceptableAddress(f.distAddr) && AcceptablePort(f.distPort)
  {
    ValidateAddressMeaning(f.srcAddr);
    ValidateAddressMeaning(f.distAddr);
  }

  /** The form's state: its five fields and the messages it shows. */
  class RuleForm {
    var protocol: string
    var srcAddr: string
    var srcPort: FormPort
    var distAddr: string
    var distPort: FormPort
    var errors: FieldErrors

    constructor (f: Form)
      ensures Fields() == f && errors == NoErrors
    {
      protocol, srcAddr, srcPort, distAddr, distPort := f.protocol, f.srcAddr, f.srcPort, f.distAddr, f.distPort;
      errors := NoErrors;
    }

    function Fields(): Form
      reads this
    {
      Form(protocol, srcAddr, srcPort, distAddr, distPort)
    }

    /**
     * handleSubmit. The result is the rule passed to `onSubmit`, after which
     * the form is closed, or None when neither callback runs. On rejection
     * all four messages are recorded; on success the messages are left as
     * they were.
     */
    method HandleSubmit() returns (submitted: Option<ForwardRule>)
      modifies this`errors
      ensures Decide(Fields()).Rejected? ==> submitted == None && errors == Decide(Fields()).errors
      ensures Decide(Fields()).Submitted? ==> submitted == Some(Decide(Fields()).rule) && errors == old(errors)
    {
      var srcAddrError := ValidateAddress(srcAddr);
      var srcPortError := ValidatePort(srcPort);
      var distAddrError := ValidateAddress(distAddr);
      var distPortError := ValidatePort(distPort);
      if srcAddrError != "" || srcPortError != "" || distAddrError != "" || distPortError != "" {
        errors := FieldErrors(srcAddrError, srcPortError, distAddrError, distPortError);
        return None;
      }
      var srcPortNumber := PortNumber(srcPort);
      var distPortNumber := PortNumber(distPort);
      submitted := Some(ForwardRule(protocol, srcAddr, srcPortNumber, distAddr, distPortNumber));
    }
  }
}
