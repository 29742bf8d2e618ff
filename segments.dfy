/** The meaning of the query `ListsService.getSegmentedSubscribers` builds: the list's
    members in the organisation, filtered by the conjunction of the list's rules, each
    rule a condition on `subscriber.custom_fields->>'field'`. */
module Segments {
  import opened Errors
  import opened Entities
  import opened Text
  import opened SqlLike

  predicate IsNumeric(op: Operator) {
    op == GreaterThan || op == LessThan
  }

  /** The condition a rule adds is TRUE for a row with these fields. `->>` of a key the
      row lacks is NULL, and a comparison with NULL is never TRUE. */
  predicate Matches(fields: map<string, string>, rule: Rule) {
    && rule.field in fields
    && var text := fields[rule.field];
       match rule.operator
       case Equals => text == rule.value
       case Contains => ILike("%" + rule.value + "%", text)
       case StartsWith => ILike(rule.value + "%", text)
       case EndsWith => ILike("%" + rule.value, text)
       case GreaterThan =>
         var x, y := ParseNumeric(text), ParseNumeric(rule.value);
         x.Some? && y.Some? && x.value > y.value
       case LessThan =>
         var x, y := ParseNumeric(text), ParseNumeric(rule.value);
         x.Some? && y.Some? && x.value < y.value
  }

  /** A numeric rule whose value is not a number: binding it as a numeric parameter fails. */
  predicate BadBinding(rule: Rule) {
    IsNumeric(rule.operator) && ParseNumeric(rule.value).None?
  }

  /** Evaluating a numeric rule on a row casts a present, non-numeric text. */
  predicate CastFails(fields: map<string, string>, rule: Rule) {
    IsNumeric(rule.operator) && rule.field in fields && ParseNumeric(fields[rule.field]).None?
  }

  /** The rules combine with AND. */
  predicate MatchesAll(fields: map<string, string>, rules: seq<Rule>) {
    rules == [] || (Matches(fields, rules[0]) && MatchesAll(fields, rules[1..]))
  }

  /** The rows the join and the tenant filter select before any rule applies. */
  function Candidates(db: Db, list: List, org: OrgId): set<Id> {
    set id | id in list.members && id in db.subscribers && db.subscribers[id].organizationId == org
  }

  /** The rows among `ids` whose fields satisfy every rule. */
  function Selected(db: Db, ids: set<Id>, rules: seq<Rule>): set<Id> {
    set id | id in ids && id in db.subscribers && MatchesAll(db.subscribers[id].customFields, rules)
  }

  /** Executing the query raises an error. */
  predicate QueryFails(db: Db, ids: set<Id>, rules: seq<Rule>) {
    || (exists rule :: rule in rules && BadBinding(rule))
    || (exists id, rule :: id in ids && id in db.subscribers && rule in rules
          && CastFails(db.subscribers[id].customFields, rule))
  }

  /** The ids `getSegmentedSubscribers(listId, org)` returns, or the error it throws. */
  function Resolve(db: Db, listId: Id, org: OrgId): (r: Result<set<Id>>)
    ensures !ListInOrg(db, listId, org) ==> r == Err(ListNotFound)
    ensures r.Err? ==> r.error == ListNotFound || r.error == Database(InvalidNumeric)
    ensures ListInOrg(db, listId, org) ==>
      (r.Err? <==> QueryFails(db, Candidates(db, db.lists[listId], org), RulesOf(db.lists[listId])))
    ensures r.Ok? ==> forall id :: id in r.value ==>
      && id in db.lists[listId].members
      && SubscriberInOrg(db, id, org)
      && MatchesAll(db.subscribers[id].customFields, RulesOf(db.lists[listId]))
    ensures r.Ok? ==> forall id ::
      (id in Candidates(db, db.lists[listId], org) && MatchesAll(db.subscribers[id].customFields, RulesOf(db.lists[listId])))
      ==> id in r.value
    ensures ListInOrg(db, listId, org) && RulesOf(db.lists[listId]) == [] ==>
      r == Ok(Candidates(db, db.lists[listId], org))
  {
    if !ListInOrg(db, listId, org) then
      Err(ListNotFound)
    else
      var list := db.lists[listId];
      var rules := RulesOf(list);
      var ids := Candidates(db, list, org);
      if QueryFails(db, ids, rules) then
        Err(Database(InvalidNumeric))
      else
        assert rules == [] ==> Selected(db, ids, rules) == ids;
        Ok(Selected(db, ids, rules))
  }

  // ----- the rules form a conjunction -----

  lemma {:induction false} MatchesAllEvery(fields: map<string, string>, rules: seq<Rule>)
    ensures MatchesAll(fields, rules) <==> forall i :: 0 <= i < |rules| ==> Matches(fields, rules[i])
    decreases |rules|
  {
    if rules != [] {
      MatchesAllEvery(fields, rules[1..]);
      assert forall i :: 1 <= i < |rules| ==> rules[i] == rules[1..][i - 1];
    }
  }

  lemma MatchesAllMembers(fields: map<string, string>, rules: seq<Rule>)
    ensures MatchesAll(fields, rules) <==> forall rule :: rule in rules ==> Matches(fields, rule)
  {
    MatchesAllEvery(fields, rules);
  }

  /** Appending a rule adds one more conjunct. */
  lemma MatchesAllAppend(fields: map<string, string>, rules: seq<Rule>, rule: Rule)
    ensures MatchesAll(fields, rules + [rule]) <==> MatchesAll(fields, rules) && Matches(fields, rule)
  {
    MatchesAllMembers(fields, rules);
    MatchesAllMembers(fields, rules + [rule]);
  }

  /** Only which rules a list has matters, not their order or repetitions. */
  lemma MatchesAllOrderFree(fields: map<string, string>, rules: seq<Rule>, others: seq<Rule>)
    requires forall rule :: rule in rules <==> rule in others
    ensures MatchesAll(fields, rules) == MatchesAll(fields, others)
  {
    MatchesAllMembers(fields, rules);
    MatchesAllMembers(fields, others);
  }

  // ----- what each operator means -----

  /** A subscriber without the field never matches and never makes the query fail; otherwise
      `equals` is exact text equality, the ILIKE operators with a value free of `%`, `_` and
      `\` are case-insensitive substring, prefix and suffix tests, and the numeric operators
      compare the numbers both texts denote. */
  lemma OperatorMeaning(fields: map<string, string>, rule: Rule)
    ensures rule.field !in fields ==> !Matches(fields, rule) && !CastFails(fields, rule)
    ensures rule.operator == Equals ==>
      (Matches(fields, rule) <==> rule.field in fields && fields[rule.field] == rule.value)
    ensures rule.operator == Contains && Plain(rule.value) ==>
      (Matches(fields, rule) <==> rule.field in fields && IsSubstring(Fold(rule.value), Fold(fields[rule.field])))
    ensures rule.operator == StartsWith && Plain(rule.value) ==>
      (Matches(fields, rule) <==> rule.field in fields && Fold(rule.value) <= Fold(fields[rule.field]))
    ensures rule.operator == EndsWith && Plain(rule.value) ==>
      (Matches(fields, rule) <==> rule.field in fields && IsSuffix(Fold(rule.value), Fold(fields[rule.field])))
    ensures rule.operator == GreaterThan ==>
      (Matches(fields, rule) <==>
         (&& rule.field in fields
          && ParseNumeric(fields[rule.field]).Some? && ParseNumeric(rule.value).Some?
          && ParseNumeric(fields[rule.field]).value > ParseNumeric(rule.value).value))
    ensures rule.operator == LessThan ==>
      (Matches(fields, rule) <==>
         (&& rule.field in fields
          && ParseNumeric(fields[rule.field]).Some? && ParseNumeric(rule.value).Some?
          && ParseNumeric(fields[rule.field]).value < ParseNumeric(rule.value).value))
  {
    if rule.field in fields && Plain(rule.value) {
      var v, t := rule.value, fields[rule.field];
      FoldPatterns(v);
      FoldKeepsPlain(v);
      match rule.operator
      case Contains => PlainInfix(Fold(v), Fold(t));
      case StartsWith => PlainPrefix(Fold(v), Fold(t));
      case EndsWith => PlainSuffix(Fold(v), Fold(t));
      case _ =>
    }
  }

  // ----- resolution -----

  /** A present, non-numeric value under a numeric rule makes resolution fail: the error is
      passed on, the rule is not read as false. */
  lemma NonNumericFails(db: Db, listId: Id, org: OrgId, id: Id, rule: Rule)
    requires ListInOrg(db, listId, org)
    requires id in Candidates(db, db.lists[listId], org)
    requires rule in RulesOf(db.lists[listId]) && IsNumeric(rule.operator)
    requires rule.field in db.subscribers[id].customFields
    requires ParseNumeric(db.subscribers[id].customFields[rule.field]).None?
    ensures Resolve(db, listId, org) == Err(Database(InvalidNumeric))
  {
    assert CastFails(db.subscribers[id].customFields, rule);
  }

  /** The converse: when every numeric rule's value is a number and every candidate's
      value under a numeric rule is absent or a number, resolution succeeds, with exactly the
      candidates that satisfy every rule. */
  lemma NumericSucceeds(db: Db, listId: Id, org: OrgId)
    requires ListInOrg(db, listId, org)
    requires forall rule :: rule in RulesOf(db.lists[listId]) ==> !BadBinding(rule)
    requires forall id, rule :: id in Candidates(db, db.lists[listId], org) && rule in RulesOf(db.lists[listId]) ==>
      !CastFails(db.subscribers[id].customFields, rule)
    ensures Resolve(db, listId, org).Ok?
    ensures forall id :: id in Resolve(db, listId, org).value <==>
      && id in db.lists[listId].members
      && SubscriberInOrg(db, id, org)
      && MatchesAll(db.subscribers[id].customFields, RulesOf(db.lists[listId]))
  {
    var ids, rules := Candidates(db, db.lists[listId], org), RulesOf(db.lists[listId]);
    assert !QueryFails(db, ids, rules);
  }

  /** A resolved segment is exactly the list's members in the organisation that satisfy
      every rule. */
  lemma ResolveExactly(db: Db, listId: Id, org: OrgId)
    requires Resolve(db, listId, org).Ok?
    ensures forall id :: id in Resolve(db, listId, org).value <==>
      && id in db.lists[listId].members
      && SubscriberInOrg(db, id, org)
      && MatchesAll(db.subscribers[id].customFields, RulesOf(db.lists[listId]))
  {
  }

  /** The list with `more` rules appended to its own. */
  function WithRules(db: Db, listId: Id, rules: seq<Rule>): Db
    requires listId in db.lists
  {
    db.(lists := db.lists[listId := db.lists[listId].(segmentRules := Some(rules))])
  }

  /** Appending rules never admits a subscriber the shorter rule list excluded, and never
      turns a failing query into a succeeding one. */
  lemma ResolveNarrows(db: Db, listId: Id, org: OrgId, more: seq<Rule>)
    requires ListInOrg(db, listId, org)
    ensures var after := Resolve(WithRules(db, listId, RulesOf(db.lists[listId]) + more), listId, org);
      after.Ok? ==> Resolve(db, listId, org).Ok? && after.value <= Resolve(db, listId, org).value
  {
    var rules := RulesOf(db.lists[listId]);
    var db' := WithRules(db, listId, rules + more);
    var list := db.lists[listId];
    assert RulesOf(db'.lists[listId]) == rules + more;
    assert Candidates(db', db'.lists[listId], org) == Candidates(db, list, org);
    var after := Resolve(db', listId, org);
    if after.Ok? {
      var ids := Candidates(db, list, org);
      assert !QueryFails(db, ids, rules) by {
        assert forall rule :: rule in rules ==> rule in rules + more;
      }
      forall id | id in after.value
        ensures MatchesAll(db.subscribers[id].customFields, rules)
      {
        var fields := db.subscribers[id].customFields;
        MatchesAllMembers(fields, rules);
        MatchesAllMembers(fields, rules + more);
      }
    }
  }

  /** Reordering (or repeating) a list's rules does not change what resolution returns. */
  lemma ResolveOrderFree(db: Db, listId: Id, org: OrgId, others: seq<Rule>)
    requires ListInOrg(db, listId, org)
    requires forall rule :: rule in others <==> rule in RulesOf(db.lists[listId])
    ensures Resolve(WithRules(db, listId, others), listId, org) == Resolve(db, listId, org)
  {
    var rules := RulesOf(db.lists[listId]);
    var db' := WithRules(db, listId, others);
    var list := db.lists[listId];
    assert RulesOf(db'.lists[listId]) == others;
    var ids := Candidates(db, list, org);
    assert Candidates(db', db'.lists[listId], org) == ids;
    assert db'.subscribers == db.subscribers;
    assert QueryFails(db', ids, others) == QueryFails(db, ids, rules);
    forall id | id in ids
      ensures MatchesAll(db.subscribers[id].customFields, others) == MatchesAll(db.subscribers[id].customFields, rules)
    {
      MatchesAllOrderFree(db.subscribers[id].customFields, rules, others);
    }
    assert Selected(db', ids, others) == Selected(db, ids, rules);
  }
}
