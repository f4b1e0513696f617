/** The `agent_logs` table. */
module AgentLogModel {
  import opened Wrappers
  import opened Base
  import opened Enums

  /** A JSON document, kept opaque: only its serialised text is carried. */
  datatype Json = Json(text: string)

  /** The `dict` default of `extra_data`: an empty JSON object. */
  const EmptyObject: Json := Json("{}")

  /**
   * One row of `agent_logs`. It belongs to exactly one project; `pbiId`
   * is an optional reference to a PBI that does not own the log.
   */
  datatype AgentLog = AgentLog(
    meta: Meta,
    projectId: Id,
    pbiId: Option<Id>,
    agentName: string,
    messageType: AgentMessageType,
    content: string,
    extraData: Option<Json> := Some(EmptyObject))

  /** A row built without `extra_data` gets an empty dictionary. */
  function NewAgentLogRow(meta: Meta, projectId: Id, pbiId: Option<Id>, agentName: string,
                          messageType: AgentMessageType, content: string): (l: AgentLog)
    ensures l.meta == meta && l.projectId == projectId && l.pbiId == pbiId
    ensures l.agentName == agentName && l.messageType == messageType && l.content == content
    ensures l.extraData == Some(EmptyObject)
  {
    AgentLog(meta, projectId, pbiId, agentName, messageType, content)
  }
}
