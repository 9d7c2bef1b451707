/** The plugin object. It holds the two parts of the host it changes: the
    compiled template's resource map and the provider's IAM role statements.
    `CompileIamRoleStatementsToEventBridge` runs before packaging is set up,
    `Compile` after it. */
module Plugin {
  import opened JsonValues
  import opened DeepMerge
  import opened Templates
  import opened ErrorText

  /** How a compile ends: normally, or by throwing the given string. */
  datatype Outcome = Completed | Thrown(message: string)

  class ServerlessPlugin {
    /** The configuration the last compile read (`null` before the first). */
    var eventBridgeCrossOrganization: Option<Config>
    /** The logical id of the role the rules deliver through. */
    const eventBridgeIamRole: string := IamRoleKey
    /** The host's `provider.compiledCloudFormationTemplate.Resources`. */
    var resources: map<string, Json>
    /** The host's `provider.iamRoleStatements`. */
    var iamRoleStatements: seq<Json>

    constructor (resources: map<string, Json>, iamRoleStatements: seq<Json>)
      ensures eventBridgeCrossOrganization == None
      ensures this.resources == resources && this.iamRoleStatements == iamRoleStatements
    {
      eventBridgeCrossOrganization := None;
      this.resources := resources;
      this.iamRoleStatements := iamRoleStatements;
    }

    /** Reads the configuration (`custom` is what the host holds under
        `service.custom.eventBridgeCrossOrganization`, None when absent or
        falsy); does nothing without one; throws the validator's messages
        joined by newlines when there are any, before touching the resources;
        otherwise runs the receiver branch and the sender branch, each when
        its section is present. */
    method Compile(custom: Option<Config>, validate: Config -> seq<string>) returns (outcome: Outcome)
      modifies this
      ensures eventBridgeCrossOrganization == custom
      ensures iamRoleStatements == old(iamRoleStatements)
      ensures custom.None? ==> outcome == Completed && resources == old(resources)
      ensures custom.Some? && validate(custom.value) != [] ==>
        outcome == Thrown(JoinLines(validate(custom.value))) && resources == old(resources)
      ensures custom.Some? && validate(custom.value) == [] ==>
        outcome == Completed && resources == Generate(old(resources), custom.value)
    {
      eventBridgeCrossOrganization := custom;
      if custom.None? {
        return Completed;
      }
      var errors := validate(custom.value);
      if |errors| > 0 {
        return Thrown(JoinLines(errors));
      }
      if custom.value.receiveEvents.Some? {
        CompileReceiver();
      }
      if custom.value.sendEvents.Some? {
        CompileSender();
      }
      outcome := Completed;
    }

    /** Merges the organization's event bus policy into the resources. */
    method CompileReceiver()
      requires eventBridgeCrossOrganization.Some? && eventBridgeCrossOrganization.value.receiveEvents.Some?
      modifies this`resources
      ensures resources == WithReceiver(old(resources), eventBridgeCrossOrganization.value.receiveEvents.value)
    {
      var receive := eventBridgeCrossOrganization.value.receiveEvents.value;
      resources := MergeFields(resources, ReceiverTemplate(receive));
    }

    /** The role, then the rules. */
    method CompileSender()
      requires eventBridgeCrossOrganization.Some? && eventBridgeCrossOrganization.value.sendEvents.Some?
      modifies this`resources
      ensures resources == WithSender(old(resources), eventBridgeCrossOrganization.value.sendEvents.value)
    {
      CompileIamRoleToEventBridge();
      CompileRulesToEventBridge();
    }

    /** Appends the statement letting the default execution role put events
        on any bus; earlier statements stay as they were. */
    method CompileIamRoleStatementsToEventBridge()
      modifies this`iamRoleStatements
      ensures iamRoleStatements == old(iamRoleStatements) + [PutEventsStatement()]
    {
      iamRoleStatements := iamRoleStatements + [PutEventsStatement()];
    }

    /** Merges the single sender role into the resources. */
    method CompileIamRoleToEventBridge()
      modifies this`resources
      ensures resources == MergeFields(old(resources), map[eventBridgeIamRole := RoleBody()])
    {
      resources := MergeFields(resources, map[eventBridgeIamRole := RoleBody()]);
    }

    /** Merges one rule per `sendEvents` entry into the resources, in order. */
    method CompileRulesToEventBridge()
      requires eventBridgeCrossOrganization.Some? && eventBridgeCrossOrganization.value.sendEvents.Some?
      modifies this`resources
      ensures resources == MergeAll(old(resources), RuleTemplates(eventBridgeCrossOrganization.value.sendEvents.value))
    {
      var targetAccounts := eventBridgeCrossOrganization.value.sendEvents.value;
      resources := MergeAll(resources, RuleTemplates(targetAccounts));
    }
  }
}
