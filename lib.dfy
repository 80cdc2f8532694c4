/** The rule records exchanged between the form, the dashboard and the server (components/lib.ts). */
module Lib {
  /**
   * A JavaScript number as the rule fields carry it: an integer, or the NaN
   * that `parseInt('', 10)` produces for a port field left blank.
   */
  datatype Number = Int(value: int) | NaN

  /** JavaScript `==` / `===` on two numbers: NaN equals nothing, itself included. */
  predicate SameNumber(a: Number, b: Number)
  {
    a.Int? && b.Int? && a.value == b.value
  }

  /** `ForwardRule`: one forwarding rule as the form submits it. */
  datatype ForwardRule = ForwardRule(
    protocol: string,
    srcAddr: string,
    srcPort: Number,
    distAddr: string,
    distPort: Number)

  /** `ForwardRules`: a `ForwardRule` with the client-side `id` the dashboard lists it under. */
  datatype ForwardRules = ForwardRules(
    id: int,
    protocol: string,
    srcAddr: string,
    srcPort: Number,
    distAddr: string,
    distPort: Number)

  /** The listed record for `rule` under `id`; dropping the id gives the rule back. */
  function WithId(rule: ForwardRule, id: int): (r: ForwardRules)
    ensures r.id == id
    ensures StripId(r) == rule
  {
    ForwardRules(id, rule.protocol, rule.srcAddr, rule.srcPort, rule.distAddr, rule.distPort)
  }

  /** The five rule fields of a listed record, without its id; the record is determined by them and its id. */
  function StripId(r: ForwardRules): (rule: ForwardRule)
    ensures ForwardRules(r.id, rule.protocol, rule.srcAddr, rule.srcPort, rule.distAddr, rule.distPort) == r
  {
    ForwardRule(r.protocol, r.srcAddr, r.srcPort, r.distAddr, r.distPort)
  }
}
