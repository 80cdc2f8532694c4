/**
 * The client-side bookkeeping of the forwarding dashboard (pages/index.tsx):
 * the list of `ForwardRules` it shows, and how adding, deleting, editing and
 * refreshing transform that list. The server calls around them are not modelled;
 * where a handler updates the list only on some replies, that is a parameter.
 */
module Dashboard {
  import opened Wrappers
  import opened Lib

  /** The ids strictly increase along the list, so no two rules share one. */
  ghost predicate IdsIncreasing(rules: seq<ForwardRules>)
  {
    forall i, j :: 0 <= i < j < |rules| ==> rules[i].id < rules[j].id
  }

  /** `a` is `b` with some elements left out and the rest in their order. */
  ghost predicate IsSubsequence(a: seq<ForwardRules>, b: seq<ForwardRules>)
    decreases |b|
  {
    a == [] || (b != [] && ((a[0] == b[0] && IsSubsequence(a[1..], b[1..])) || IsSubsequence(a, b[1..])))
  }

  // ----- Adding: handleAddRule -----

  /** JavaScript `v || 0` on an id that may be `undefined`: undefined and 0 are falsy and give 0. */
  function OrZero(v: Option<int>): int
  {
    if v.None? || v.value == 0 then 0 else v.value
  }

  /** `rules.slice(-1)[0]?.id || 0`: the last rule's id, or 0 for an empty list. */
  function LatestId(rules: seq<ForwardRules>): (id: int)
    ensures rules == [] ==> id == 0
    ensures rules != [] ==> id == rules[|rules| - 1].id
  {
    var last := rules[if rules == [] then 0 else |rules| - 1..];
    var lastId := if last == [] then None else Some(last[0].id);
    OrZero(lastId)
  }

  /** The id handleAddRule gives a new rule. */
  function NextId(rules: seq<ForwardRules>): (id: int)
    ensures rules == [] ==> id == 1
    ensures rules != [] ==> id == rules[|rules| - 1].id + 1
  {
    LatestId(rules) + 1
  }

  /** `[...rules, newRule]`: the submitted rule under the next id, after all the others. */
  function AddRule(rules: seq<ForwardRules>, rule: ForwardRule): (r: seq<ForwardRules>)
    ensures |r| == |rules| + 1
    ensures r[..|rules|] == rules
    ensures r[|rules|] == WithId(rule, NextId(rules))
  {
    rules + [WithId(rule, NextId(rules))]
  }

  /** The new id exceeds every id in a list whose ids increase, so the list keeps increasing. */
  lemma AddRuleKeepsIdsIncreasing(rules: seq<ForwardRules>, rule: ForwardRule)
    requires IdsIncreasing(rules)
    ensures forall i :: 0 <= i < |rules| ==> rules[i].id < NextId(rules)
    ensures IdsIncreasing(AddRule(rules, rule))
  {
  }

  // ----- Deleting: handleDeleteRule -----

  /** `rules.filter(rule => rule.id !== id)`. */
  function RemoveById(rules: seq<ForwardRules>, id: int): (r: seq<ForwardRules>)
    ensures |r| <= |rules|
    ensures forall i :: 0 <= i < |r| ==> r[i].id != id
  {
    if rules == [] then []
    else (if rules[0].id != id then [rules[0]] else []) + RemoveById(rules[1..], id)
  }

  /** The survivors are exactly the rules with another id, each kept as often as it occurred, in their order. */
  lemma {:induction false} RemoveByIdExactly(rules: seq<ForwardRules>, id: int)
    ensures forall x :: multiset(RemoveById(rules, id))[x] == if x.id == id then 0 else multiset(rules)[x]
    ensures forall x :: x in RemoveById(rules, id) <==> x in rules && x.id != id
    ensures IsSubsequence(RemoveById(rules, id), rules)
    decreases |rules|
  {
    if rules != [] {
      var tail := RemoveById(rules[1..], id);
      RemoveByIdExactly(rules[1..], id);
      assert rules == [rules[0]] + rules[1..];
      assert multiset(rules) == multiset{rules[0]} + multiset(rules[1..]);
      var r := RemoveById(rules, id);
      if rules[0].id != id {
        assert r == [rules[0]] + tail;
        assert r[1..] == tail;
        assert multiset(r) == multiset{rules[0]} + multiset(tail);
      } else {
        assert r == tail;
      }
      forall x ensures x in r <==> x in rules && x.id != id {
        assert x in r <==> multiset(r)[x] > 0;
        assert x in rules <==> multiset(rules)[x] > 0;
      }
    }
  }

  /** Removing rules keeps the ids increasing. */
  lemma {:induction false} RemoveByIdKeepsIdsIncreasing(rules: seq<ForwardRules>, id: int)
    requires IdsIncreasing(rules)
    ensures IdsIncreasing(RemoveById(rules, id))
    decreases |rules|
  {
    if rules != [] {
      var tail := RemoveById(rules[1..], id);
      RemoveByIdKeepsIdsIncreasing(rules[1..], id);
      RemoveByIdExactly(rules[1..], id);
      if rules[0].id != id {
        var r := RemoveById(rules, id);
        assert r == [rules[0]] + tail;
        forall j | 0 < j < |r| ensures rules[0].id < r[j].id {
          assert r[j] == tail[j - 1];
          assert tail[j - 1] in rules[1..];
        }
      }
    }
  }

  /** `rules.find(rule => rule.id === id)`: the first rule with the id, if any. */
  function FindById(rules: seq<ForwardRules>, id: int): (r: Option<ForwardRules>)
    ensures r.None? <==> forall i :: 0 <= i < |rules| ==> rules[i].id != id
    ensures r.Some? ==> exists i :: (0 <= i < |rules| && rules[i] == r.value && r.value.id == id
                                     && forall j :: 0 <= j < i ==> rules[j].id != id)
  {
    if rules == [] then None
    else if rules[0].id == id then Some(rules[0])
    else
      var r := FindById(rules[1..], id);
      assert forall i :: 0 < i < |rules| ==> rules[i] == rules[1..][i - 1];
      r
  }

  /** What handleDeleteRule sends and what it leaves in the list. */
  datatype Deletion = Deletion(payload: ForwardRule, remaining: seq<ForwardRules>)

  /**
   * handleDeleteRule. Without a rule of that id, reading the fields of
   * `undefined` throws before the request and the list update: None. Otherwise
   * the found rule without its id is sent, and the list loses every rule with
   * that id whatever the server replies.
   */
  function DeleteRule(rules: seq<ForwardRules>, id: int): (d: Option<Deletion>)
    ensures d.None? <==> forall i :: 0 <= i < |rules| ==> rules[i].id != id
    ensures d.Some? ==> WithId(d.value.payload, id) == FindById(rules, id).value
    ensures d.Some? ==> d.value.remaining == RemoveById(rules, id)
  {
    match FindById(rules, id)
    case None => None
    case Some(t) => Some(Deletion(StripId(t), RemoveById(rules, id)))
  }

  // ----- Editing: handleModifyRule, handleEditRule -----

  /** `rule.srcAddr == editingRule?.srcAddr && rule.srcPort == editingRule?.srcPort`. */
  function MatchesEditing(r: ForwardRules, editing: Option<ForwardRule>): (b: bool)
    ensures b ==> editing.Some? && r.srcPort.Int? && editing.value.srcPort.Int?
  {
    editing.Some? && r.srcAddr == editing.value.srcAddr && SameNumber(r.srcPort, editing.value.srcPort)
  }

  /**
   * The id handleEditRule gives the edited rule, as written:
   * `rules.map(…)[0] || 0` looks at the first rule only.
   */
  function EditTargetId(rules: seq<ForwardRules>, editing: Option<ForwardRule>): (id: int)
    ensures rules != [] && MatchesEditing(rules[0], editing) ==> id == rules[0].id
    ensures rules == [] || !MatchesEditing(rules[0], editing) ==> id == 0
  {
    var mapped := seq(|rules|, i requires 0 <= i < |rules| =>
      if MatchesEditing(rules[i], editing) then Some(rules[i].id) else None);
    var first := if mapped == [] then None else mapped[0];
    OrZero(first)
  }

  /** `rules.map(rule => rule.id === newRule.id ? newRule : rule)`. */
  function ReplaceById(rules: seq<ForwardRules>, newRule: ForwardRules): (r: seq<ForwardRules>)
    ensures |r| == |rules|
    ensures forall i :: 0 <= i < |rules| ==> r[i] == if rules[i].id == newRule.id then newRule else rules[i]
  {
    if rules == [] then []
    else
      var tail := ReplaceById(rules[1..], newRule);
      assert forall i :: 0 < i < |rules| ==> rules[i] == rules[1..][i - 1];
      [if rules[0].id == newRule.id then newRule else rules[0]] + tail
  }

  /** Replacing by id never changes an id, so increasing ids stay increasing. */
  lemma ReplaceByIdKeepsIds(rules: seq<ForwardRules>, newRule: ForwardRules)
    ensures forall i :: 0 <= i < |rules| ==> ReplaceById(rules, newRule)[i].id == rules[i].id
    ensures IdsIncreasing(rules) ==> IdsIncreasing(ReplaceById(rules, newRule))
  {
  }

  /** With distinct ids, replacing by the id of position `k` rewrites that position alone. */
  lemma ReplaceByIdAt(rules: seq<ForwardRules>, k: nat, rule: ForwardRule)
    requires IdsIncreasing(rules) && k < |rules|
    ensures ReplaceById(rules, WithId(rule, rules[k].id)) == rules[k := WithId(rule, rules[k].id)]
  {
  }

  /** handleEditRule's new list, as written: the submitted rule under the target id, replacing by id. */
  function EditRule(rules: seq<ForwardRules>, editing: Option<ForwardRule>, rule: ForwardRule): (r: seq<ForwardRules>)
    ensures |r| == |rules|
    ensures forall i :: 0 <= i < |rules| ==> r[i].id == rules[i].id
    ensures forall i :: 0 <= i < |rules| ==>
      r[i] == if rules[i].id == EditTargetId(rules, editing) then WithId(rule, rules[i].id) else rules[i]
  {
    ReplaceByIdKeepsIds(rules, WithId(rule, EditTargetId(rules, editing)));
    ReplaceById(rules, WithId(rule, EditTargetId(rules, editing)))
  }

  /**
   * As written, editing a rule other than the first of a freshly fetched list
   * (ids 0 and 1) overwrites the first rule and leaves the edited one as it was.
   */
  lemma EditRuleOverwritesFirstRule()
    ensures
      var a := ForwardRule("tcp", "10.0.0.1", Int(8080), "10.0.0.5", Int(80));
      var b := ForwardRule("tcp", "10.0.0.2", Int(8081), "10.0.0.6", Int(81));
      var edited := ForwardRule("tcp", "10.0.0.2", Int(8081), "10.0.0.7", Int(82));
      var rules := [WithId(a, 0), WithId(b, 1)];
      EditTargetId(rules, Some(b)) == 0
      && EditRule(rules, Some(b), edited) == [WithId(edited, 0), WithId(b, 1)]
  {
  }

  /** The id of the first rule that matches the rule being edited, 0 when none does. */
  function EditingRuleId(rules: seq<ForwardRules>, editing: Option<ForwardRule>): (id: int)
    ensures forall k ::
      (0 <= k < |rules| && MatchesEditing(rules[k], editing)
       && (forall j :: 0 <= j < k ==> !MatchesEditing(rules[j], editing))) ==> id == rules[k].id
    ensures (forall i :: 0 <= i < |rules| ==> !MatchesEditing(rules[i], editing)) ==> id == 0
  {
    if rules == [] then 0
    else if MatchesEditing(rules[0], editing) then rules[0].id
    else
      var id := EditingRuleId(rules[1..], editing);
      assert forall i :: 0 < i < |rules| ==> rules[i] == rules[1..][i - 1];
      id
  }

  /** handleEditRule with the target id looked up among all the rules. */
  function EditRuleCorrected(rules: seq<ForwardRules>, editing: Option<ForwardRule>, rule: ForwardRule): seq<ForwardRules>
  {
    ReplaceById(rules, WithId(rule, EditingRuleId(rules, editing)))
  }

  /** Corrected, editing rewrites exactly the first rule that matches the rule being edited, keeping its id. */
  lemma EditRuleCorrectedRewritesEditedRule(rules: seq<ForwardRules>, editing: Option<ForwardRule>, rule: ForwardRule, k: nat)
    requires IdsIncreasing(rules) && k < |rules|
    requires MatchesEditing(rules[k], editing)
    requires forall j :: 0 <= j < k ==> !MatchesEditing(rules[j], editing)
    ensures EditRuleCorrected(rules, editing, rule) == rules[k := WithId(rule, rules[k].id)]
  {
    ReplaceByIdAt(rules, k, rule);
  }

  // ----- Refreshing: getlist -----

  /**
   * getlist's list update: a non-empty fetched list is numbered 0..n-1 in
   * order with its fields copied; an empty one leaves the list as it was.
   */
  method GetList(current: seq<ForwardRules>, data: seq<ForwardRule>) returns (next: seq<ForwardRules>)
    ensures |data| == 0 ==> next == current
    ensures |data| > 0 ==> |next| == |data| && forall i :: 0 <= i < |data| ==> next[i] == WithId(data[i], i)
  {
    if |data| == 0 {
      return current;
    }
    var index := 0;
    var rules: seq<ForwardRules> := [];
    for k := 0 to |data|
      invariant index == k && |rules| == k
      invariant forall i :: 0 <= i < k ==> rules[i] == WithId(data[i], i)
    {
      rules := rules + [WithId(data[k], index)];
      index := index + 1;
    }
    next := rules;
  }

  /** A list numbered by position has increasing ids. */
  lemma NumberedIdsIncreasing(rules: seq<ForwardRules>)
    requires forall i :: 0 <= i < |rules| ==> rules[i].id == i
    ensures IdsIncreasing(rules)
  {
  }

  // ----- The dashboard's state -----

  /** The rule list and the rule being edited, as the dashboard keeps them. */
  class State {
    var rules: seq<ForwardRules>
    var editingRule: Option<ForwardRule>

    ghost predicate Valid()
      reads this
    {
      IdsIncreasing(rules)
    }

    constructor ()
      ensures Valid() && rules == [] && editingRule == None
    {
      rules, editingRule := [], None;
    }

    /**
     * handleAddRule. `listUpdated` says whether the server's reply reaches the
     * branch that calls setRules (a non-ok reply whose error is `''`).
     */
    method HandleAddRule(rule: ForwardRule, listUpdated: bool)
      requires Valid()
      modifies this`rules
      ensures Valid()
      ensures rules == if listUpdated then AddRule(old(rules), rule) else old(rules)
    {
      AddRuleKeepsIdsIncreasing(rules, rule);
      if listUpdated {
        rules := AddRule(rules, rule);
      }
    }

    /** handleDeleteRule: the payload sent, None when the lookup throws. */
    method HandleDeleteRule(id: int) returns (payload: Option<ForwardRule>)
      requires Valid()
      modifies this`rules
      ensures Valid()
      ensures DeleteRule(old(rules), id).None? ==> payload == None && rules == old(rules)
      ensures DeleteRule(old(rules), id).Some? ==>
        payload == Some(DeleteRule(old(rules), id).value.payload) && rules == RemoveById(old(rules), id)
    {
      match DeleteRule(rules, id)
      case None =>
        payload := None;
      case Some(d) =>
        payload := Some(d.payload);
        RemoveByIdKeepsIdsIncreasing(rules, id);
        rules := d.remaining;
    }

    /** handleModifyRule: the selected rule, without its id, becomes the rule being edited. */
    method HandleModifyRule(rule: ForwardRules)
      modifies this`editingRule
      ensures editingRule == Some(StripId(rule))
    {
      editingRule := Some(StripId(rule));
    }

    /** handleEditRule, as written; `listUpdated` as for HandleAddRule. */
    method HandleEditRule(rule: ForwardRule, listUpdated: bool)
      requires Valid()
      modifies this`rules
      ensures Valid()
      ensures rules == if listUpdated then EditRule(old(rules), editingRule, rule) else old(rules)
    {
      ReplaceByIdKeepsIds(rules, WithId(rule, EditTargetId(rules, editingRule)));
      if listUpdated {
        rules := EditRule(rules, editingRule, rule);
      }
    }

    /** getlist, with `data` the fetched rules. */
    method Refresh(data: seq<ForwardRule>)
      requires Valid()
      modifies this`rules
      ensures Valid()
      ensures |data| == 0 ==> rules == old(rules)
      ensures |data| > 0 ==> |rules| == |data| && forall i :: 0 <= i < |data| ==> rules[i] == WithId(data[i], i)
    {
      var next := GetList(rules, data);
      if |data| > 0 {
        NumberedIdsIncreasing(next);
      }
      rules := next;
    }
  }
}
