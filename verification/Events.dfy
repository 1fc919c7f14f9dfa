/** The events a chat turn emits: app/chat/pipeline.py. */
module Events {
  import opened Sql
  import opened ResultCaching

  datatype Payload = Payload(sql: Tree, columns: seq<string>, rows: seq<RowDict>, rowCount: nat, cached: bool)

  datatype PipelineEvent =
    | TextDelta(text: string)
    | ToolSQL(sql: Tree)
    | ToolResult(payload: Payload)
    | Suggestions(items: seq<string>)
    | Done
}
