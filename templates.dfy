/** The plugin's configuration (`custom.eventBridgeCrossOrganization`) and the
    CloudFormation fragments built from it, with what they add to the host's
    resource map once merged in. */
module Templates {
  import opened JsonValues
  import opened DeepMerge

  /** `receiveEvents`: the organization allowed to put events on the local
      default bus, and the statement id of that permission. */
  datatype ReceiveEvents = ReceiveEvents(organizationId: string, statementId: string)

  /** One `sendEvents` entry. `eventBusName` is accepted but never read. */
  datatype TargetAccount = TargetAccount(
    targetAccountId: string,
    ruleName: Option<string>,
    eventBusName: Option<string>,
    pattern: Json)

  /** A configuration that passed validation; an absent section is None. */
  datatype Config = Config(receiveEvents: Option<ReceiveEvents>, sendEvents: Option<seq<TargetAccount>>)

  const ReceiverKey := "EventBusPolicyCrossOrganization"
  const IamRoleKey := "CrossOrganizationEventBridgeRole"

  /** The event bus policy: any principal of the organization may put events
      on the default bus. */
  function ReceiverTemplate(receive: ReceiveEvents): (r: map<string, Json>)
    ensures r.Keys == {ReceiverKey}
  {
    map[ReceiverKey := JObj(map[
      "Type" := JStr("AWS::Events::EventBusPolicy"),
      "Properties" := JObj(map[
        "Action" := JStr("events:PutEvents"),
        "Principal" := JStr("*"),
        "EventBusName" := JStr("default"),
        "StatementId" := JStr(receive.statementId),
        "Condition" := JObj(map[
          "Type" := JStr("StringEquals"),
          "Key" := JStr("aws:PrincipalOrgID"),
          "Value" := JStr(receive.organizationId)])])])]
  }

  /** The role EventBridge assumes to deliver events to the target buses. */
  function RoleBody(): Json
  {
    JObj(map[
      "Type" := JStr("AWS::IAM::Role"),
      "Properties" := JObj(map[
        "RoleName" := JStr("fullEventBridgeRole"),
        "AssumeRolePolicyDocument" := JObj(map[
          "Statement" := JArr([JObj(map[
            "Effect" := JStr("Allow"),
            "Principal" := JObj(map["Service" := JArr([JStr("events.amazonaws.com")])]),
            "Action" := JArr([JStr("sts:AssumeRole")])])])]),
        "ManagedPolicyArns" := JArr([JStr("arn:aws:iam::aws:policy/AmazonEventBridgeFullAccess")])])])
  }

  function RoleTemplate(): (r: map<string, Json>)
    ensures r.Keys == {IamRoleKey}
  {
    map[IamRoleKey := RoleBody()]
  }

  /** `ruleName` when it is a non-empty string (JavaScript truthiness),
      otherwise `EventRuleCase<targetAccountId>`; never sanitised. */
  function RuleName(account: TargetAccount): string
  {
    if account.ruleName.Some? && account.ruleName.value != "" then account.ruleName.value
    else "EventRuleCase" + account.targetAccountId
  }

  /** The default bus of the target account, in the fixed region. */
  function TargetArn(targetAccountId: string): string
  {
    "arn:aws:events:eu-central-1:" + targetAccountId + ":event-bus/default"
  }

  function RuleBody(account: TargetAccount): Json
  {
    JObj(map[
      "Type" := JStr("AWS::Events::Rule"),
      "Properties" := JObj(map[
        "Name" := JStr(RuleName(account)),
        "EventBusName" := JStr("default"),
        "EventPattern" := account.pattern,
        "State" := JStr("ENABLED"),
        "Targets" := JArr([RuleTarget(account)])])])
  }

  /** The one target of a rule: the target account's default bus, reached
      through the role. */
  function RuleTarget(account: TargetAccount): Json
  {
    JObj(map[
      "Arn" := JStr(TargetArn(account.targetAccountId)),
      "RoleArn" := JObj(map["Fn::GetAtt" := JArr([JStr(IamRoleKey), JStr("Arn")])]),
      "Id" := JStr("targetId_" + account.targetAccountId)])
  }

  function RuleTemplate(account: TargetAccount): (r: map<string, Json>)
    ensures r.Keys == {RuleName(account)}
  {
    map[RuleName(account) := RuleBody(account)]
  }

  /** `targetAccounts.map(...)`: one single-key template per entry, in order. */
  function RuleTemplates(accounts: seq<TargetAccount>): (r: seq<map<string, Json>>)
    ensures |r| == |accounts|
  {
    seq(|accounts|, i requires 0 <= i < |accounts| => RuleTemplate(accounts[i]))
  }

  /** The rule names the entries derive, duplicates collapsed. */
  function RuleNames(accounts: seq<TargetAccount>): set<string>
  {
    if accounts == [] then {} else RuleNames(accounts[..|accounts| - 1]) + {RuleName(accounts[|accounts| - 1])}
  }

  /** `rule.Properties.Targets[0][name]`. */
  function TargetPath(name: string): seq<Step>
  {
    [Key("Properties"), Key("Targets"), Index(0), Key(name)]
  }

  /** `rule.Properties.Targets[0].RoleArn["Fn::GetAtt"][0]`: the key of the
      role a rule target refers to. */
  function RoleRefPath(): seq<Step>
  {
    [Key("Properties"), Key("Targets"), Index(0), Key("RoleArn"), Key("Fn::GetAtt"), Index(0)]
  }

  /** The statement appended to the default execution role's statements. */
  function PutEventsStatement(): Json
  {
    JObj(map[
      "Effect" := JStr("Allow"),
      "Action" := JArr([JStr("events:PutEvents")]),
      "Resource" := JStr("*")])
  }

  /** The resource map after the receiver branch. */
  function WithReceiver(resources: map<string, Json>, receive: ReceiveEvents): map<string, Json>
  {
    MergeFields(resources, ReceiverTemplate(receive))
  }

  /** The resource map after the sender branch: the role, then every rule. */
  function WithSender(resources: map<string, Json>, accounts: seq<TargetAccount>): map<string, Json>
  {
    MergeAll(MergeFields(resources, RoleTemplate()), RuleTemplates(accounts))
  }

  /** The resource map after a compile of a valid configuration: the receiver
      branch when `receiveEvents` is present, then the sender branch when
      `sendEvents` is present (an empty list included). */
  function Generate(resources: map<string, Json>, config: Config): map<string, Json>
  {
    var afterReceiver := AfterReceiver(resources, config);
    if config.sendEvents.Some? then WithSender(afterReceiver, config.sendEvents.value) else afterReceiver
  }

  function AfterReceiver(resources: map<string, Json>, config: Config): map<string, Json>
  {
    if config.receiveEvents.Some? then WithReceiver(resources, config.receiveEvents.value) else resources
  }

  /** The keys a configuration generates. */
  function GeneratedKeys(config: Config): set<string>
  {
    (if config.receiveEvents.Some? then {ReceiverKey} else {})
    + (if config.sendEvents.Some? then {IamRoleKey} + RuleNames(config.sendEvents.value) else {})
  }

  // ----- rule names -----

  /** The rule keys the templates carry are exactly the derived names. */
  lemma {:induction false} RuleTemplateKeys(accounts: seq<TargetAccount>)
    ensures TemplateKeys(RuleTemplates(accounts)) == RuleNames(accounts)
  {
    if accounts != [] {
      var init := accounts[..|accounts| - 1];
      assert RuleTemplates(accounts)[..|accounts| - 1] == RuleTemplates(init);
      RuleTemplateKeys(init);
    }
  }

  /** A name is derived iff some entry derives it. */
  lemma {:induction false} RuleNamesMembers(accounts: seq<TargetAccount>, name: string)
    ensures name in RuleNames(accounts) <==> exists i :: 0 <= i < |accounts| && RuleName(accounts[i]) == name
  {
    if accounts != [] {
      var init := accounts[..|accounts| - 1];
      RuleNamesMembers(init, name);
      if name in RuleNames(init) {
        var i :| 0 <= i < |init| && RuleName(init[i]) == name;
        assert accounts[i] == init[i];
      }
      if exists i :: 0 <= i < |accounts| && RuleName(accounts[i]) == name {
        var i :| 0 <= i < |accounts| && RuleName(accounts[i]) == name;
        if i < |init| {
          assert init[i] == accounts[i];
        }
      }
    }
  }

  /** Entries whose names coincide collapse: there are never more rule keys
      than entries. */
  lemma {:induction false} RuleNamesBound(accounts: seq<TargetAccount>)
    ensures |RuleNames(accounts)| <= |accounts|
  {
    if accounts != [] {
      RuleNamesBound(accounts[..|accounts| - 1]);
    }
  }

  /** Two entries without a `ruleName` get the same rule exactly when they
      name the same target account. */
  lemma DefaultRuleNamesCollide(a: TargetAccount, b: TargetAccount)
    requires a.ruleName.None? || a.ruleName == Some("")
    requires b.ruleName.None? || b.ruleName == Some("")
    ensures RuleName(a) == RuleName(b) <==> a.targetAccountId == b.targetAccountId
  {
    var prefix := "EventRuleCase";
    if RuleName(a) == RuleName(b) {
      assert a.targetAccountId == (prefix + a.targetAccountId)[|prefix|..];
      assert b.targetAccountId == (prefix + b.targetAccountId)[|prefix|..];
    }
  }

  // ----- what a compile adds -----

  /** The compiled map holds the old keys and the generated ones, and nothing
      else: the receiver key when `receiveEvents` is present, the role key and
      one key per distinct rule name when `sendEvents` is present. */
  lemma GenerateKeys(resources: map<string, Json>, config: Config)
    ensures Generate(resources, config).Keys == resources.Keys + GeneratedKeys(config)
  {
    var afterReceiver := AfterReceiver(resources, config);
    AfterReceiverKeys(resources, config);
    if config.sendEvents.Some? {
      GenerateWithSender(resources, config);
      RoleStepKeys(afterReceiver);
      RuleTemplateKeys(config.sendEvents.value);
    }
  }

  /** Entries of the host map under keys the configuration does not generate
      are left exactly as they were. */
  lemma GenerateKeepsOthers(resources: map<string, Json>, config: Config, k: string)
    requires k in resources && k !in GeneratedKeys(config)
    ensures k in Generate(resources, config) && Generate(resources, config)[k] == resources[k]
  {
    GenerateKeys(resources, config);
    if config.sendEvents.Some? {
      RuleTemplateKeys(config.sendEvents.value);
    }
  }

  // ----- the receiver -----

  /** The leaves that make `policy` the organization's event bus policy: its
      type, the action, the principal, the default bus, and the statement id
      and organization of `receive`, verbatim. */
  ghost predicate IsOrganizationPolicy(policy: Json, receive: ReceiveEvents)
  {
    && Field(policy, [Key("Type")]) == Some(JStr("AWS::Events::EventBusPolicy"))
    && Field(policy, Prop("Action")) == Some(JStr("events:PutEvents"))
    && Field(policy, Prop("Principal")) == Some(JStr("*"))
    && Field(policy, Prop("EventBusName")) == Some(JStr("default"))
    && Field(policy, Prop("StatementId")) == Some(JStr(receive.statementId))
    && Field(policy, [Key("Properties"), Key("Condition"), Key("Value")]) == Some(JStr(receive.organizationId))
  }

  lemma ReceiverBodyFields(receive: ReceiveEvents)
    ensures IsOrganizationPolicy(ReceiverTemplate(receive)[ReceiverKey], receive)
  {
  }

  /** Right after the receiver branch the policy is in place, whatever the
      host held under its key: scalar leaves of a template override. */
  lemma ReceiverPolicy(resources: map<string, Json>, receive: ReceiveEvents)
    ensures ReceiverKey in WithReceiver(resources, receive)
    ensures IsOrganizationPolicy(WithReceiver(resources, receive)[ReceiverKey], receive)
  {
    var body := ReceiverTemplate(receive)[ReceiverKey];
    var before := Get(resources, ReceiverKey);
    assert WithReceiver(resources, receive)[ReceiverKey] == Merge(before, body);
    ReceiverBodyFields(receive);
    MergeKeepsLeaf(before, body, [Key("Type")]);
    MergeKeepsLeaf(before, body, Prop("Action"));
    MergeKeepsLeaf(before, body, Prop("Principal"));
    MergeKeepsLeaf(before, body, Prop("EventBusName"));
    MergeKeepsLeaf(before, body, Prop("StatementId"));
    MergeKeepsLeaf(before, body, [Key("Properties"), Key("Condition"), Key("Value")]);
  }

  /** The sender branch leaves every key other than the role and the rule
      names as it was. */
  lemma SenderKeepsOthers(resources: map<string, Json>, accounts: seq<TargetAccount>, k: string)
    requires k in resources && k != IamRoleKey && k !in RuleNames(accounts)
    ensures k in WithSender(resources, accounts) && WithSender(resources, accounts)[k] == resources[k]
  {
    RuleTemplateKeys(accounts);
    var withRole := MergeFields(resources, RoleTemplate());
    assert withRole[k] == resources[k];
    assert MergeAll(withRole, RuleTemplates(accounts))[k] == withRole[k];
  }

  /** The event bus policy after a compile with `receiveEvents`: its type, the
      action, principal and bus, the statement id and organization taken
      verbatim, whatever the host had under the key before; this holds unless
      a rule takes the same key. */
  lemma ReceiverResource(resources: map<string, Json>, config: Config)
    requires config.receiveEvents.Some?
    requires config.sendEvents.Some? ==> ReceiverKey !in RuleNames(config.sendEvents.value)
    ensures ReceiverKey in Generate(resources, config)
    ensures IsOrganizationPolicy(Generate(resources, config)[ReceiverKey], config.receiveEvents.value)
  {
    var afterReceiver := AfterReceiver(resources, config);
    ReceiverPolicy(resources, config.receiveEvents.value);
    if config.sendEvents.Some? {
      SenderKeepsOthers(afterReceiver, config.sendEvents.value, ReceiverKey);
    }
  }

  // ----- the role -----

  lemma RoleBodyFields()
    ensures Field(RoleBody(), [Key("Type")]) == Some(JStr("AWS::IAM::Role"))
    ensures Field(RoleBody(), Prop("RoleName")) == Some(JStr("fullEventBridgeRole"))
  {
  }

  /** With `sendEvents` present, however many entries it has, the role key is
      present and is an IAM role named `fullEventBridgeRole`; when neither the
      host nor a rule had that key, it is exactly the role template. */
  lemma RoleResource(resources: map<string, Json>, config: Config)
    requires config.sendEvents.Some?
    requires IamRoleKey !in RuleNames(config.sendEvents.value)
    ensures IamRoleKey in Generate(resources, config)
    ensures var role := Generate(resources, config)[IamRoleKey];
      && Field(role, [Key("Type")]) == Some(JStr("AWS::IAM::Role"))
      && Field(role, Prop("RoleName")) == Some(JStr("fullEventBridgeRole"))
    ensures IamRoleKey !in resources ==> Generate(resources, config)[IamRoleKey] == RoleBody()
  {
    var accounts := config.sendEvents.value;
    var afterReceiver := AfterReceiver(resources, config);
    var before := Get(afterReceiver, IamRoleKey);
    var withRole := MergeFields(afterReceiver, RoleTemplate());
    assert withRole[IamRoleKey] == Merge(before, RoleBody());
    RoleBodyFields();
    MergeKeepsLeaf(before, RoleBody(), [Key("Type")]);
    MergeKeepsLeaf(before, RoleBody(), Prop("RoleName"));
    RuleTemplateKeys(accounts);
    assert Generate(resources, config) == MergeAll(withRole, RuleTemplates(accounts));
    assert MergeAll(withRole, RuleTemplates(accounts))[IamRoleKey] == withRole[IamRoleKey];
    if IamRoleKey !in resources {
      assert before == None;
      MergeOntoNothing(RoleBody());
    }
  }

  // ----- the rules -----

  lemma RuleBodyFields(account: TargetAccount)
    ensures var rule := RuleBody(account);
      && Field(rule, [Key("Type")]) == Some(JStr("AWS::Events::Rule"))
      && Field(rule, Prop("Name")) == Some(JStr(RuleName(account)))
      && Field(rule, Prop("EventBusName")) == Some(JStr("default"))
      && Field(rule, Prop("State")) == Some(JStr("ENABLED"))
      && Field(rule, Prop("EventPattern")) == Some(account.pattern)
  {
  }

  /** A rule template has exactly one target: the account's default bus in
      the fixed region, the id `targetId_<account>`, and the role. */
  lemma RuleBodyTarget(account: TargetAccount)
    ensures var rule := RuleBody(account);
      && Field(rule, Prop("Targets")) == Some(JArr([RuleTarget(account)]))
      && Field(rule, TargetPath("Arn")) == Some(JStr(TargetArn(account.targetAccountId)))
      && Field(rule, TargetPath("Id")) == Some(JStr("targetId_" + account.targetAccountId))
      && Field(rule, RoleRefPath()) == Some(JStr(IamRoleKey))
  {
  }

  /** The leaves the last entry deriving a rule's name fixes: the rule type,
      that name, the default bus, the ENABLED state, and as first target the
      entry's account bus, its target id and the role. */
  ghost predicate IsRuleFor(rule: Json, account: TargetAccount)
  {
    && Field(rule, [Key("Type")]) == Some(JStr("AWS::Events::Rule"))
    && Field(rule, Prop("Name")) == Some(JStr(RuleName(account)))
    && Field(rule, Prop("EventBusName")) == Some(JStr("default"))
    && Field(rule, Prop("State")) == Some(JStr("ENABLED"))
    && Field(rule, TargetPath("Arn")) == Some(JStr(TargetArn(account.targetAccountId)))
    && Field(rule, TargetPath("Id")) == Some(JStr("targetId_" + account.targetAccountId))
    && Field(rule, RoleRefPath()) == Some(JStr(IamRoleKey))
  }

  /** For the last entry deriving a given rule name, the rule under that name
      carries that entry's leaves, whatever the host or earlier entries held
      under the name. */
  lemma RuleResource(resources: map<string, Json>, config: Config, j: nat)
    requires config.sendEvents.Some? && j < |config.sendEvents.value|
    requires var accounts := config.sendEvents.value;
      forall i :: j < i < |accounts| ==> RuleName(accounts[i]) != RuleName(accounts[j])
    ensures var account := config.sendEvents.value[j];
      && RuleName(account) in Generate(resources, config)
      && IsRuleFor(Generate(resources, config)[RuleName(account)], account)
  {
    GenerateWithSender(resources, config);
    RuleLeaves(MergeFields(AfterReceiver(resources, config), RoleTemplate()), config.sendEvents.value, j);
  }

  /** The same on any map the rule templates are merged onto. */
  lemma RuleLeaves(base: map<string, Json>, accounts: seq<TargetAccount>, j: nat)
    requires j < |accounts|
    requires forall i :: j < i < |accounts| ==> RuleName(accounts[i]) != RuleName(accounts[j])
    ensures RuleName(accounts[j]) in MergeAll(base, RuleTemplates(accounts))
    ensures IsRuleFor(MergeAll(base, RuleTemplates(accounts))[RuleName(accounts[j])], accounts[j])
  {
    var account := accounts[j];
    var name := RuleName(account);
    var templates := RuleTemplates(accounts);
    assert templates[j][name] == RuleBody(account);
    forall i | j < i < |templates|
      ensures name !in templates[i]
    {
      assert templates[i].Keys == {RuleName(accounts[i])};
    }
    RuleBodyFields(account);
    RuleBodyTarget(account);
    MergeAllKeepsLastLeaf(base, templates, j, name, [Key("Type")]);
    MergeAllKeepsLastLeaf(base, templates, j, name, Prop("Name"));
    MergeAllKeepsLastLeaf(base, templates, j, name, Prop("EventBusName"));
    MergeAllKeepsLastLeaf(base, templates, j, name, Prop("State"));
    MergeAllKeepsLastLeaf(base, templates, j, name, TargetPath("Arn"));
    MergeAllKeepsLastLeaf(base, templates, j, name, TargetPath("Id"));
    MergeAllKeepsLastLeaf(base, templates, j, name, RoleRefPath());
  }

  /** A rule whose name no other entry derives, and that the host, the
      receiver and the role do not hold, is exactly its template: the event
      pattern verbatim and a single target. */
  lemma RuleVerbatim(resources: map<string, Json>, config: Config, j: nat)
    requires config.sendEvents.Some? && j < |config.sendEvents.value|
    requires var accounts := config.sendEvents.value;
      forall i :: 0 <= i < |accounts| && i != j ==> RuleName(accounts[i]) != RuleName(accounts[j])
    requires RuleName(config.sendEvents.value[j]) !in resources
    requires RuleName(config.sendEvents.value[j]) != IamRoleKey
    requires config.receiveEvents.Some? ==> RuleName(config.sendEvents.value[j]) != ReceiverKey
    ensures var account := config.sendEvents.value[j];
      && RuleName(account) in Generate(resources, config)
      && Generate(resources, config)[RuleName(account)] == RuleBody(account)
  {
    var afterReceiver := AfterReceiver(resources, config);
    GenerateWithSender(resources, config);
    AfterReceiverKeys(resources, config);
    RoleStepKeys(afterReceiver);
    FreshRule(MergeFields(afterReceiver, RoleTemplate()), config.sendEvents.value, j);
  }

  /** The same on any map the rule templates are merged onto. */
  lemma FreshRule(base: map<string, Json>, accounts: seq<TargetAccount>, j: nat)
    requires j < |accounts| && RuleName(accounts[j]) !in base
    requires forall i :: 0 <= i < |accounts| && i != j ==> RuleName(accounts[i]) != RuleName(accounts[j])
    ensures RuleName(accounts[j]) in MergeAll(base, RuleTemplates(accounts))
    ensures MergeAll(base, RuleTemplates(accounts))[RuleName(accounts[j])] == RuleBody(accounts[j])
  {
    var name := RuleName(accounts[j]);
    var templates := RuleTemplates(accounts);
    forall i | 0 <= i < |templates| && i != j
      ensures name !in templates[i]
    {
      assert templates[i].Keys == {RuleName(accounts[i])};
    }
    MergeAllFreshKey(base, templates, j, name);
  }

  /** An entry repeated right after itself adds nothing: the map is the same
      as with a single copy, whatever the host held before. */
  lemma RepeatedEntryCollapses(resources: map<string, Json>, receive: Option<ReceiveEvents>,
                               accounts: seq<TargetAccount>, account: TargetAccount)
    ensures Generate(resources, Config(receive, Some(accounts + [account, account])))
         == Generate(resources, Config(receive, Some(accounts + [account])))
  {
    var config := Config(receive, Some(accounts + [account]));
    GenerateWithSender(resources, config);
    GenerateWithSender(resources, Config(receive, Some(accounts + [account, account])));
    RepeatedRuleTemplates(MergeFields(AfterReceiver(resources, config), RoleTemplate()), accounts, account);
  }

  /** Two entries deriving the same name, new to the host, share one rule:
      the second template merged onto the first, so the rule's event pattern
      is the second pattern deep-merged onto the first. */
  lemma CollidingRulesMerge(resources: map<string, Json>, first: TargetAccount, second: TargetAccount)
    requires RuleName(first) == RuleName(second)
    requires RuleName(first) !in resources && RuleName(first) != IamRoleKey
    ensures var compiled := Generate(resources, Config(None, Some([first, second])));
      && RuleName(first) in compiled
      && compiled[RuleName(first)] == Merge(Some(RuleBody(first)), RuleBody(second))
  {
    SharedRuleBody(resources, Config(None, Some([first, second])), RuleName(first));
    RuleFoldOfPair(first, second);
  }

  // ----- rules that several entries share -----

  /** The rule the entries build under `name`: the bodies of the entries that
      derive it, each merged onto the ones before, in entry order, starting
      from nothing; None when no entry derives `name`. */
  function RuleFold(accounts: seq<TargetAccount>, name: string): Option<Json>
  {
    if accounts == [] then None
    else
      var previous := RuleFold(accounts[..|accounts| - 1], name);
      var last := accounts[|accounts| - 1];
      if RuleName(last) == name then Some(Merge(previous, RuleBody(last))) else previous
  }

  /** The last entry that derives `name`, if any. */
  function LastDeriving(accounts: seq<TargetAccount>, name: string): Option<TargetAccount>
  {
    if accounts == [] then None
    else if RuleName(accounts[|accounts| - 1]) == name then Some(accounts[|accounts| - 1])
    else LastDeriving(accounts[..|accounts| - 1], name)
  }

  /** Merging the rule templates onto a map that lacks `name` leaves under
      `name` exactly the fold of the bodies deriving it. */
  lemma {:induction false} MergeRulesFold(base: map<string, Json>, accounts: seq<TargetAccount>, name: string)
    requires name !in base
    ensures Get(MergeAll(base, RuleTemplates(accounts)), name) == RuleFold(accounts, name)
  {
    if accounts != [] {
      var init := accounts[..|accounts| - 1];
      assert RuleTemplates(accounts)[..|accounts| - 1] == RuleTemplates(init);
      MergeRulesFold(base, init, name);
    }
  }

  /** For any configuration, a rule name new to the host (and not taken by
      the receiver or the role) holds, after a compile, the bodies of all the
      entries deriving it merged in entry order; it is absent when no entry
      derives it. */
  lemma SharedRuleBody(resources: map<string, Json>, config: Config, name: string)
    requires config.sendEvents.Some?
    requires name !in resources && name != IamRoleKey
    requires config.receiveEvents.Some? ==> name != ReceiverKey
    ensures Get(Generate(resources, config), name) == RuleFold(config.sendEvents.value, name)
  {
    var afterReceiver := AfterReceiver(resources, config);
    GenerateWithSender(resources, config);
    AfterReceiverKeys(resources, config);
    RoleStepKeys(afterReceiver);
    MergeRulesFold(MergeFields(afterReceiver, RoleTemplate()), config.sendEvents.value, name);
  }

  /** Two targets differ only in their scalars, so merging one onto another
      gives the second. */
  lemma TargetOntoTarget(earlier: TargetAccount, later: TargetAccount)
    ensures Merge(Some(RuleTarget(earlier)), RuleTarget(later)) == RuleTarget(later)
  {
    var before := RuleTarget(earlier).fields;
    var after := RuleTarget(later).fields;
    forall k | k in after
      ensures Merge(Get(before, k), after[k]) == after[k]
    {
      if k == "RoleArn" {
        MergeOntoNothing(after[k]);
        MergeIdempotent(None, after[k]);
      }
    }
    assert MergeFields(before, after) == after;
  }

  /** A one-target list merged onto nothing or onto another one-target list
      is the new one-target list. */
  lemma SingleTargetMerge(previous: Option<Json>, earlier: TargetAccount, later: TargetAccount)
    requires previous == None || previous == Some(JArr([RuleTarget(earlier)]))
    ensures Merge(previous, JArr([RuleTarget(later)])) == JArr([RuleTarget(later)])
  {
    MergeOntoNothing(RuleTarget(later));
    TargetOntoTarget(earlier, later);
    var before := if previous.Some? then previous.value.items else [];
    assert MergeItems(before, [RuleTarget(later)]) == [RuleTarget(later)];
  }

  /** However many entries share a name, the rule they build has exactly one
      target, and it is the last such entry's target. */
  lemma {:induction false} RuleFoldTargets(accounts: seq<TargetAccount>, name: string)
    ensures RuleFold(accounts, name).Some? <==> LastDeriving(accounts, name).Some?
    ensures RuleFold(accounts, name).Some? ==>
      Field(RuleFold(accounts, name).value, Prop("Targets")) == Some(JArr([RuleTarget(LastDeriving(accounts, name).value)]))
  {
    if accounts != [] {
      var init := accounts[..|accounts| - 1];
      var last := accounts[|accounts| - 1];
      var previous := RuleFold(init, name);
      RuleFoldTargets(init, name);
      if RuleName(last) == name {
        RuleBodyTarget(last);
        FieldOfMerge(previous, RuleBody(last), Prop("Targets"));
        var earlier := if LastDeriving(init, name).Some? then LastDeriving(init, name).value else last;
        SingleTargetMerge(FieldOf(previous, Prop("Targets")), earlier, last);
      }
    }
  }

  /** After a compile, a rule name new to the host that some entries derive
      holds one rule with exactly one target: the last such entry's. */
  lemma SharedRuleTarget(resources: map<string, Json>, config: Config, name: string)
    requires config.sendEvents.Some? && name in RuleNames(config.sendEvents.value)
    requires name !in resources && name != IamRoleKey
    requires config.receiveEvents.Some? ==> name != ReceiverKey
    ensures name in Generate(resources, config)
    ensures LastDeriving(config.sendEvents.value, name).Some?
    ensures Field(Generate(resources, config)[name], Prop("Targets"))
         == Some(JArr([RuleTarget(LastDeriving(config.sendEvents.value, name).value)]))
  {
    SharedRuleBody(resources, config, name);
    GenerateKeys(resources, config);
    RuleFoldTargets(config.sendEvents.value, name);
  }

  // ----- single unfolding steps, kept apart to keep the proofs above small -----

  lemma GenerateWithSender(resources: map<string, Json>, config: Config)
    requires config.sendEvents.Some?
    ensures Generate(resources, config)
         == MergeAll(MergeFields(AfterReceiver(resources, config), RoleTemplate()), RuleTemplates(config.sendEvents.value))
  {
  }

  lemma AfterReceiverKeys(resources: map<string, Json>, config: Config)
    ensures AfterReceiver(resources, config).Keys
         == resources.Keys + (if config.receiveEvents.Some? then {ReceiverKey} else {})
  {
  }

  lemma RoleStepKeys(resources: map<string, Json>)
    ensures MergeFields(resources, RoleTemplate()).Keys == resources.Keys + {IamRoleKey}
  {
  }

  lemma RuleFoldOfPair(first: TargetAccount, second: TargetAccount)
    requires RuleName(first) == RuleName(second)
    ensures RuleFold([first, second], RuleName(first)) == Some(Merge(Some(RuleBody(first)), RuleBody(second)))
  {
    var name := RuleName(first);
    assert RuleFold([first], name) == Some(Merge(None, RuleBody(first))) by {
      assert [first][..0] == [];
    }
    MergeOntoNothing(RuleBody(first));
    assert [first, second][..1] == [first];
  }

  lemma RepeatedRuleTemplates(base: map<string, Json>, accounts: seq<TargetAccount>, account: TargetAccount)
    ensures MergeAll(base, RuleTemplates(accounts + [account, account]))
         == MergeAll(base, RuleTemplates(accounts + [account]))
  {
    assert RuleTemplates(accounts + [account, account]) == RuleTemplates(accounts) + [RuleTemplate(account), RuleTemplate(account)];
    assert RuleTemplates(accounts + [account]) == RuleTemplates(accounts) + [RuleTemplate(account)];
    MergeAllRepeatedLast(base, RuleTemplates(accounts), RuleTemplate(account));
  }

  /** In such a merged rule the event pattern is the second pattern merged
      onto the first. */
  lemma RulePatternsMerge(first: TargetAccount, second: TargetAccount)
    ensures Field(Merge(Some(RuleBody(first)), RuleBody(second)), Prop("EventPattern"))
         == Some(Merge(Some(first.pattern), second.pattern))
  {
    RuleBodyFields(first);
    RuleBodyFields(second);
    FieldOfMerge(Some(RuleBody(first)), RuleBody(second), Prop("EventPattern"));
  }

  /** Patterns are merged, not replaced: `{source: ["a", "b"]}` then
      `{source: ["c"]}` gives `{source: ["c", "b"]}`, which is neither. */
  lemma PatternMergeExample()
    ensures Merge(Some(JObj(map["source" := JArr([JStr("a"), JStr("b")])])), JObj(map["source" := JArr([JStr("c")])]))
         == JObj(map["source" := JArr([JStr("c"), JStr("b")])])
  {
    var items := MergeItems([JStr("a"), JStr("b")], [JStr("c")]);
    assert items == [JStr("c"), JStr("b")];
    assert MergeFields(map["source" := JArr([JStr("a"), JStr("b")])], map["source" := JArr([JStr("c")])])
        == map["source" := JArr(items)];
  }
}
