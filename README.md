# Cross-organization EventBridge plugin, modelled in Dafny

This project models the Serverless Framework plugin `serverless-events-cross-organization`
(`lib/index.js`). The plugin reads the `custom.eventBridgeCrossOrganization` section of a
service and writes CloudFormation resources into the host's compiled template:

- with `receiveEvents`, an `AWS::Events::EventBusPolicy` that lets every principal of one
  AWS organization put events on the local default bus;
- with `sendEvents`, one IAM role (`CrossOrganizationEventBridgeRole`) and one
  `AWS::Events::Rule` per distinct derived rule name, forwarding matching events to the
  default bus of the target account in `eu-central-1`.

Before packaging starts it also appends one statement (`Allow events:PutEvents on *`) to the
provider's IAM role statements.

Files:

- `json.dfy` (module `JsonValues`): JSON values and lookup along a path such as
  `Properties.Targets[0].Arn`.
- `merge.dfy` (module `DeepMerge`): lodash's `_.merge` on JSON values. It is a deep merge:
  objects merge key by key, arrays merge position by position, and scalars replace.
  It comes with the lemmas that say what a merge keeps and what it writes.
- `errors.dfy` (module `ErrorText`): the text of the thrown validation error
  (`errors.join('\n')`) and its inverse `split('\n')`.
- `templates.dfy` (module `Templates`): the configuration, the templates built from it,
  `Generate` (the resource map after a compile of a valid configuration), and the lemmas
  about that map.
- `plugin.dfy` (module `Plugin`): the class `ServerlessPlugin`. It holds the host's resource
  map and statement list and updates them in place, as the source does.

Three things one might expect of such a plugin do not happen. The model follows the code:

- Names and `StatementId` are used verbatim. No character is stripped.
- `eventBusName` of an entry is never read. Every rule uses the `default` bus.
- A rule whose name was already taken is deep-merged onto the earlier one, not replaced by
  the later one (`PatternMergeExample`).

## Model

| member | source | states |
|---|---|---|
| `Plugin.ServerlessPlugin.constructor` | lib/index.js:8-11 | no configuration has been read yet; the host's resource map and statement list are the ones given |
| `Plugin.ServerlessPlugin.Compile` | lib/index.js:19-37 | the configuration is stored; an absent configuration returns and changes nothing; validation errors throw the newline-joined messages and leave the resources untouched; otherwise the resources become `Generate` of the old ones, with the receiver branch when `receiveEvents` is present and the sender branch when `sendEvents` is present (an empty list included); the statements never change |
| `Plugin.ServerlessPlugin.CompileReceiver` | lib/index.js:39-60 | the event bus policy template is deep-merged into the resources |
| `Plugin.ServerlessPlugin.CompileSender` | lib/index.js:62-65 | the role, then the rules, are merged into the resources |
| `Plugin.ServerlessPlugin.CompileIamRoleStatementsToEventBridge` | lib/index.js:67-77 | the statement list grows by exactly the `Allow events:PutEvents on *` statement at its end; earlier statements are unchanged |
| `Plugin.ServerlessPlugin.CompileIamRoleToEventBridge` | lib/index.js:79-108 | the role template, under the plugin's role key, is deep-merged into the resources |
| `Plugin.ServerlessPlugin.CompileRulesToEventBridge` | lib/index.js:110-136 | one rule template per `sendEvents` entry is merged into the resources, in entry order |
| `DeepMerge.MergeFields` | lib/index.js:59 | merging a template into an object keeps every old key and adds the template's keys; keys the template lacks keep their old values |
| `DeepMerge.MergeItems` | lib/index.js:123-129 | an array merged onto an array is as long as the longer one; positions past the end of the source keep the old values |
| `DeepMerge.MergeAll` | lib/index.js:135 | merging several templates in turn yields the old keys plus all the templates' keys; a key no template has keeps its value |
| `DeepMerge.MergeOntoNothing` | lib/index.js:59 | a template merged under a key that was absent is stored exactly as written |
| `DeepMerge.MergeIdempotent` | lib/index.js:107 | merging the same value a second time changes nothing |
| `DeepMerge.FieldOfMerge` | lib/index.js:59 | at any path the template defines, the merge result holds the template's value there merged onto the old value there; so a scalar of the template always wins |
| `DeepMerge.MergeAllUntouchedAfter` | lib/index.js:135 | templates after position n that lack a key leave that key's value as it was after the first n |
| `DeepMerge.MergeAllLastWriter` | lib/index.js:135 | a key's final value is the last template having it, merged onto what the earlier templates left |
| `DeepMerge.TemplateKeysMembers` | lib/index.js:135 | a key is among the merged templates' keys iff one of the templates has it |
| `DeepMerge.MergeAllFreshKey` | lib/index.js:135 | a key new to the map that only one template has ends up holding exactly that template's value |
| `DeepMerge.MergeAllTwoOnSameKey` | lib/index.js:135 | two templates sharing a key new to the map leave the second value merged onto the first |
| `DeepMerge.MergeAllRepeatedLast` | lib/index.js:135 | a template merged twice in a row at the end has the effect of merging it once |
| `ErrorText.SplitJoinLines` | lib/index.js:26-28 | splitting the thrown text at newlines gives back every validation message in order, when no message contains a newline |
| `ErrorText.JoinLinesContains` | lib/index.js:26-28 | every validation message occurs unchanged in the thrown text |
| `Templates.ReceiverTemplate` | lib/index.js:42-57 | the receiver template has exactly the key `EventBusPolicyCrossOrganization` |
| `Templates.RoleTemplate` | lib/index.js:80-105 | the role template has exactly the key `CrossOrganizationEventBridgeRole` |
| `Templates.RuleTemplate` | lib/index.js:115-131 | an entry's rule template has exactly one key, the entry's derived rule name |
| `Templates.RuleTemplates` | lib/index.js:112-133 | there is one rule template per entry |
| `Templates.RuleTemplateKeys` | lib/index.js:112-135 | the keys the rule templates add are exactly the derived rule names |
| `Templates.RuleNamesMembers` | lib/index.js:113 | a name is a rule key iff some entry derives it |
| `Templates.RuleNamesBound` | lib/index.js:112-135 | entries whose names coincide collapse into one key, so there are never more rule keys than entries |
| `Templates.DefaultRuleNamesCollide` | lib/index.js:113 | two entries without a (non-empty) `ruleName` get the same rule key exactly when their `targetAccountId`s are equal |
| `Templates.GenerateKeys` | lib/index.js:30-36 | after a compile the keys are the old ones plus exactly: the policy key if `receiveEvents` is present; the role key and the rule names if `sendEvents` is present; both branches can apply in one call |
| `Templates.GenerateKeepsOthers` | lib/index.js:59 | a host entry under a key the configuration does not generate is left unchanged |
| `Templates.ReceiverBodyFields` | lib/index.js:42-57 | the policy template has type `AWS::Events::EventBusPolicy`, action `events:PutEvents`, principal `*`, bus `default`, the given `statementId` unchanged and the given `organizationId` as `Condition.Value` |
| `Templates.ReceiverPolicy` | lib/index.js:39-59 | right after the receiver branch, the policy under its key has those fields, whatever the host held there before |
| `Templates.SenderKeepsOthers` | lib/index.js:62-65 | the sender branch changes no key other than the role key and the rule names |
| `Templates.ReceiverResource` | lib/index.js:30-59 | after a compile with `receiveEvents`, the policy has those fields, unless a rule is named `EventBusPolicyCrossOrganization` |
| `Templates.RoleBodyFields` | lib/index.js:80-105 | the role template is an `AWS::IAM::Role` named `fullEventBridgeRole` |
| `Templates.RoleResource` | lib/index.js:62-107 | with `sendEvents`, however many entries it has, the single role key is present with that type and name; if the host did not hold that key, it is exactly the role template |
| `Templates.RuleBodyFields` | lib/index.js:115-122 | a rule template is an `AWS::Events::Rule` with `Name` equal to its key, bus `default`, state `ENABLED` and the entry's pattern unchanged |
| `Templates.RuleBodyTarget` | lib/index.js:123-129 | a rule template has exactly one target: `Arn` is `arn:aws:events:eu-central-1:<id>:event-bus/default`, `Id` is `targetId_<id>`, and `RoleArn` refers to the role key |
| `Templates.RuleResource` | lib/index.js:113-135 | after a compile, the rule under each derived name carries the last such entry's type, name, default bus, ENABLED state, target ARN, target id and role reference (`IsRuleFor`), whatever the host or earlier entries held there |
| `Templates.RuleLeaves` | lib/index.js:113-135 | the same leaves, for the rule templates merged onto any map |
| `Templates.RuleVerbatim` | lib/index.js:112-135 | a rule name that no other entry derives and that no other resource holds ends up as exactly the rule template, so it has the pattern verbatim and a single target |
| `Templates.FreshRule` | lib/index.js:112-135 | the same, for the rule templates merged onto any map that lacks the name |
| `Templates.RepeatedEntryCollapses` | lib/index.js:133-135 | an entry that comes twice in a row gives the same resources as a single copy |
| `Templates.RepeatedRuleTemplates` | lib/index.js:112-135 | the same, for the rule templates merged onto any map |
| `Templates.MergeRulesFold` | lib/index.js:112-135 | merging the rule templates onto a map lacking a name leaves under it exactly the bodies of the entries deriving that name, merged onto each other in entry order starting from nothing, and nothing when no entry derives it |
| `Templates.SharedRuleBody` | lib/index.js:30-135 | for any configuration (with or without `receiveEvents`, any number of entries), a rule name new to the host and not the policy or role key holds after a compile exactly that in-order merge of the bodies of all entries deriving it |
| `Templates.TargetOntoTarget` | lib/index.js:124-128 | a rule target merged onto another target is the new target: the ARN and id are replaced, and the role reference is the same in both |
| `Templates.SingleTargetMerge` | lib/index.js:123-129 | a one-element target list merged onto nothing or onto another one-element target list is the new one-element list |
| `Templates.RuleFoldTargets` | lib/index.js:112-135 | the merged rule exists exactly when some entry derives the name, and its `Targets` is a one-element list holding the last such entry's target |
| `Templates.SharedRuleTarget` | lib/index.js:112-135 | after a compile, a rule name new to the host that any number of entries share has exactly one target, the last such entry's |
| `Templates.RuleFoldOfPair` | lib/index.js:135 | for two entries deriving one name, the merged rule is the second body merged onto the first |
| `Templates.CollidingRulesMerge` | lib/index.js:113-135 | two entries deriving one new name leave one rule: the second template deep-merged onto the first (the two-entry instance of `SharedRuleBody`) |
| `Templates.RulePatternsMerge` | lib/index.js:121 | in such a rule the event pattern is the second pattern merged onto the first |
| `Templates.PatternMergeExample` | lib/index.js:135 | `{source: ["c"]}` merged onto `{source: ["a", "b"]}` gives `{source: ["c", "b"]}`, so colliding patterns are not last-write-wins |

## Left out

- Hook registration (lib/index.js:13-16) and the host's lifecycle ordering are left out. `CompileIamRoleStatementsToEventBridge` and `Compile` are modelled as two separately callable methods.
- JSON-schema validation is left out. The `jsonschema` library and `schema.json` are not part of this model. The validator is a parameter `Config -> seq<string>`, and its messages stand for the errors' string forms. Only "any message means throw" is modelled.
- The configuration is typed. It is modelled as it is once it has passed the schema (strings where the schema asks for strings). A falsy configuration value (`undefined`, `null`, `false`, `0`, `""`) is `None`. `_.get`'s path lookup is replaced by the parameter `custom`.
- The thrown value is a plain string in the source. It is modelled as an `Outcome` result, not as an exception.
- If the host lacks `compiledCloudFormationTemplate` or `iamRoleStatements`, the source throws a `TypeError`. This is not modelled: the host is assumed to have both.
- `DeepMerge.Merge`: an object merged onto an existing array is merged onto `{}`. lodash instead keeps the array and sets the object's keys as properties on it, which no JSON value can represent.
- `DeepMerge.Merge`: lodash skips a source key named `__proto__`. The model does not.
- `DeepMerge.Merge`: lodash updates nested objects of the host in place, so other references to them see the change. The model works on values and does not capture this aliasing.
- JavaScript numbers are modelled as integers. Event patterns are opaque JSON values, and their meaning as patterns is not modelled.
- No CloudFormation, IAM or EventBridge semantics of the emitted resources are modelled.
- `Templates.ReceiverResource` states the policy fields only when no rule is named `EventBusPolicyCrossOrganization`. A rule under that key is merged onto the policy afterwards and overwrites its `Type`.
- `Templates.RoleResource` states the role fields only when no rule is named `CrossOrganizationEventBridgeRole`, for the same reason.
- `Templates.RuleVerbatim` states the exact rule body only for a name that is new and unique. For a new name that several entries share, `SharedRuleBody` gives the merged body and `SharedRuleTarget` its single target. For a name the host already held, `RuleResource` gives the fields that the last entry determines.
