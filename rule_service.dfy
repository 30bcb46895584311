// DataTypeMappingRuleService: the user's own Oracle-to-PostgreSQL type rules
// beside the system defaults. The rule repository is a map from id to rule
// in a RuleStore; the signed-in user is the userId parameter.

module DataTypeMappingRuleService {
  import opened JavaStr
  import opened Outcomes

  datatype DataTypeMappingRule = DataTypeMappingRule(
    id: Option<string>,
    oracleType: Option<string>,
    postgresType: Option<string>,
    description: Option<string>,
    transformationHint: Option<string>,
    isCustom: Option<bool>)

  /** A stored rule; a system default has isCustom false and no owner. */
  datatype DataTypeMappingRuleEntity = DataTypeMappingRuleEntity(
    id: Option<string>,
    oracleType: Option<string>,
    postgresType: Option<string>,
    description: Option<string>,
    transformationHint: Option<string>,
    isCustom: bool,
    ownerId: Option<string>)

  function ToModel(e: DataTypeMappingRuleEntity): DataTypeMappingRule
  {
    DataTypeMappingRule(e.id, e.oracleType, e.postgresType, e.description, e.transformationHint, Some(e.isCustom))
  }

  /** toEntity: a custom rule of the user; the model's id and isCustom are not copied. */
  function ToEntity(rule: DataTypeMappingRule, userId: string): DataTypeMappingRuleEntity
  {
    DataTypeMappingRuleEntity(None, rule.oracleType, rule.postgresType, rule.description, rule.transformationHint,
                              true, Some(userId))
  }

  /**
   * toEntity then toModel: the rule comes back custom, with its four text
   * fields, whatever id and isCustom the model carried.
   */
  lemma EntityRoundTrip(rule: DataTypeMappingRule, userId: string)
    ensures ToModel(ToEntity(rule, userId)) == rule.(id := None, isCustom := Some(true))
    ensures ToEntity(rule, userId).ownerId == Some(userId)
  {
  }

  // ---------------------------------------------------------------- guards

  /** findByOracleTypeAndUser(oracleType, user) finds a rule other than the one with id except. */
  predicate TypeTaken(rules: map<string, DataTypeMappingRuleEntity>, userId: string, oracleType: Option<string>,
                      except: Option<string>)
  {
    exists k :: k in rules && Some(k) != except && rules[k].ownerId == Some(userId) && rules[k].oracleType == oracleType
  }

  /** The unique constraint on (oracle_type, user_id) among the users' own rules. */
  predicate UniqueTypes(rules: map<string, DataTypeMappingRuleEntity>)
  {
    forall a, b ::
      (a in rules && b in rules && rules[a].ownerId.Some? && rules[a].ownerId == rules[b].ownerId
       && rules[a].oracleType == rules[b].oracleType) ==> a == b
  }

  /** Every stored rule is filed under its own id. */
  predicate Keyed(rules: map<string, DataTypeMappingRuleEntity>)
  {
    forall k :: k in rules ==> rules[k].id == Some(k)
  }

  /**
   * The guard updateRule and deleteRule share: a system default rule or
   * another user's rule is refused, and a custom rule with no owner throws
   * on the owner's id.
   */
  function OwnGuard(rules: map<string, DataTypeMappingRuleEntity>, userId: string, id: string): (r: Option<Failure>)
    ensures r.None? <==> id in rules && rules[id].isCustom && rules[id].ownerId == Some(userId)
    ensures r == Some(AccessDenied) <==> id in rules && (!rules[id].isCustom || (rules[id].ownerId.Some? && rules[id].ownerId != Some(userId)))
    ensures r == Some(NotFound) <==> id !in rules
  {
    if id !in rules then Some(NotFound)
    else if !rules[id].isCustom then Some(AccessDenied)
    else if rules[id].ownerId.None? then Some(NullPointer)
    else if rules[id].ownerId != Some(userId) then Some(AccessDenied)
    else None
  }

  /**
   * updateRule's guards: the owner guard first, then, when the Oracle type
   * changes, a refusal if another rule of the user already has the new type.
   * A stored rule with no Oracle type throws on the comparison.
   */
  function UpdateGuard(rules: map<string, DataTypeMappingRuleEntity>, userId: string, id: string, rule: DataTypeMappingRule)
    : (r: Option<Failure>)
    ensures r.None? ==> id in rules && rules[id].isCustom && rules[id].ownerId == Some(userId)
    ensures r.None? ==> rules[id].oracleType.Some?
                        && (rules[id].oracleType != rule.oracleType ==> !TypeTaken(rules, userId, rule.oracleType, Some(id)))
    ensures (OwnGuard(rules, userId, id).None? && rules[id].oracleType.Some? && rules[id].oracleType != rule.oracleType
             && TypeTaken(rules, userId, rule.oracleType, Some(id))) ==> r == Some(DuplicateRule)
  {
    var own := OwnGuard(rules, userId, id);
    if own.Some? then own
    else if rules[id].oracleType.None? then Some(NullPointer)
    else if rules[id].oracleType != rule.oracleType && TypeTaken(rules, userId, rule.oracleType, Some(id)) then Some(DuplicateRule)
    else None
  }

  /** updateRule's copy: the four text fields from the model; id, isCustom and owner stay. */
  function Renamed(e: DataTypeMappingRuleEntity, rule: DataTypeMappingRule): DataTypeMappingRuleEntity
  {
    e.(oracleType := rule.oracleType, postgresType := rule.postgresType, description := rule.description,
       transformationHint := rule.transformationHint)
  }

  // ---------------------------------------------------------------- the rule store keeps its constraint

  /** A rule created when the user has none for its type keeps the types unique. */
  lemma CreateKeepsUnique(rules: map<string, DataTypeMappingRuleEntity>, userId: string, rule: DataTypeMappingRule, freshId: string)
    requires UniqueTypes(rules) && freshId !in rules && !TypeTaken(rules, userId, rule.oracleType, None)
    ensures UniqueTypes(rules[freshId := ToEntity(rule, userId).(id := Some(freshId))])
  {
    var after := rules[freshId := ToEntity(rule, userId).(id := Some(freshId))];
    forall a, b | a in after && b in after && after[a].ownerId.Some? && after[a].ownerId == after[b].ownerId
                  && after[a].oracleType == after[b].oracleType
      ensures a == b
    {
      if a != freshId && b == freshId {
        NotTaken(rules, userId, rule.oracleType, a);
      } else if b != freshId && a == freshId {
        NotTaken(rules, userId, rule.oracleType, b);
      }
    }
  }

  lemma NotTaken(rules: map<string, DataTypeMappingRuleEntity>, userId: string, oracleType: Option<string>, k: string)
    requires !TypeTaken(rules, userId, oracleType, None) && k in rules && rules[k].ownerId == Some(userId)
    ensures rules[k].oracleType != oracleType
  {
  }

  /** An update that passes the guards keeps the types unique. */
  lemma UpdateKeepsUnique(rules: map<string, DataTypeMappingRuleEntity>, userId: string, id: string, rule: DataTypeMappingRule)
    requires UniqueTypes(rules) && UpdateGuard(rules, userId, id, rule).None?
    ensures UniqueTypes(rules[id := Renamed(rules[id], rule)])
  {
    var e := rules[id];
    var after := rules[id := Renamed(e, rule)];
    forall a, b | a in after && b in after && after[a].ownerId.Some? && after[a].ownerId == after[b].ownerId
                  && after[a].oracleType == after[b].oracleType
      ensures a == b
    {
      if a == id && b != id {
        UpdatedAgainstOther(rules, userId, id, rule, b);
      } else if b == id && a != id {
        UpdatedAgainstOther(rules, userId, id, rule, a);
      }
    }
  }

  /** No other rule of the user has the type the updated rule now has. */
  lemma UpdatedAgainstOther(rules: map<string, DataTypeMappingRuleEntity>, userId: string, id: string,
                            rule: DataTypeMappingRule, other: string)
    requires UniqueTypes(rules) && UpdateGuard(rules, userId, id, rule).None?
    requires other in rules && other != id && rules[other].ownerId == Some(userId)
    ensures rules[other].oracleType != rule.oracleType
  {
    if rules[id].oracleType == rule.oracleType {
      assert rules[other].oracleType != rules[id].oracleType;
    } else {
      assert !TypeTaken(rules, userId, rule.oracleType, Some(id));
    }
  }

  /** Removing a rule keeps the types unique. */
  lemma DeleteKeepsUnique(rules: map<string, DataTypeMappingRuleEntity>, id: string)
    requires UniqueTypes(rules)
    ensures UniqueTypes(rules - {id})
  {
  }

  // ---------------------------------------------------------------- the repository

  class RuleStore {
    var rules: map<string, DataTypeMappingRuleEntity>

    predicate Valid()
      reads this
    {
      Keyed(rules) && UniqueTypes(rules)
    }

    constructor ()
      ensures Valid() && rules == map[]
    {
      rules := map[];
    }

    /** createRule(rule); freshId is the generated id. */
    method CreateRule(userId: string, rule: DataTypeMappingRule, freshId: string) returns (r: Outcome<DataTypeMappingRule>)
      requires Valid() && freshId !in rules
      modifies this
      ensures Valid()
      ensures TypeTaken(old(rules), userId, rule.oracleType, None) ==> r == Failed(DuplicateRule) && rules == old(rules)
      ensures !TypeTaken(old(rules), userId, rule.oracleType, None) ==>
                var e := ToEntity(rule, userId).(id := Some(freshId));
                rules == old(rules)[freshId := e] && r == Ok(ToModel(e))
    {
      if exists k :: k in rules && rules[k].ownerId == Some(userId) && rules[k].oracleType == rule.oracleType {
        return Failed(DuplicateRule);
      }
      var e := ToEntity(rule, userId);
      e := e.(isCustom := true, id := Some(freshId));
      CreateKeepsUnique(rules, userId, rule, freshId);
      rules := rules[freshId := e];
      r := Ok(ToModel(e));
    }

    /** updateRule(id, rule). */
    method UpdateRule(userId: string, id: string, rule: DataTypeMappingRule) returns (r: Outcome<DataTypeMappingRule>)
      requires Valid()
      modifies this
      ensures Valid()
      ensures var g := UpdateGuard(old(rules), userId, id, rule);
              if g.Some? then r == Failed(g.value) && rules == old(rules)
              else
                var e := Renamed(old(rules)[id], rule);
                rules == old(rules)[id := e] && r == Ok(ToModel(e))
    {
      var g := UpdateGuard(rules, userId, id, rule);
      if g.Some? {
        return Failed(g.value);
      }
      var e := rules[id];
      e := e.(oracleType := rule.oracleType, postgresType := rule.postgresType, description := rule.description,
              transformationHint := rule.transformationHint);
      UpdateKeepsUnique(rules, userId, id, rule);
      rules := rules[id := e];
      r := Ok(ToModel(e));
    }

    /** deleteRule(id); None when it succeeds. */
    method DeleteRule(userId: string, id: string) returns (err: Option<Failure>)
      requires Valid()
      modifies this
      ensures Valid()
      ensures var g := OwnGuard(old(rules), userId, id);
              if g.Some? then err == g && rules == old(rules) else err.None? && rules == old(rules) - {id}
    {
      err := OwnGuard(rules, userId, id);
      if err.None? {
        rules := rules - {id};
      }
    }
  }
}
