/**
 * The query-engine helpers of agent/src/rag/query.py. The index's
 * as_query_engine and QueryEngineTool.from_defaults are library calls: the
 * model stops at the arguments handed to them.
 */
module Query {
  import opened Wrappers

  /** A keyword-argument value: an int, or any other value kept opaque. */
  datatype KwArg = IntArg(n: int) | OtherArg(repr: string)

  const SimilarityTopKKey := "similarity_top_k"
  const TopKName := "TOP_K"
  const DefaultTopK := 5
  const DefaultToolName := "query_index"
  const DefaultToolDescription :=
    "Use this tool to retrieve information from a knowledge base. Provide a specific query and can call the tool multiple times if necessary."

  /** int(os.getenv("TOP_K", 5)), with int() of a string given as `toInt`. */
  function TopK(env: map<string, string>, toInt: string -> int): (k: int)
    ensures TopKName !in env ==> k == DefaultTopK
    ensures TopKName in env ==> k == toInt(env[TopKName])
  {
    if TopKName in env then toInt(env[TopKName]) else DefaultTopK
  }

  /**
   * create_query_engine: the keyword arguments passed on to as_query_engine. A caller's
   * similarity_top_k is never overwritten; without one it is set to TOP_K when that is
   * positive; no other key is added or changed.
   */
  method CreateQueryEngine(env: map<string, string>, toInt: string -> int, kwargs: map<string, KwArg>)
    returns (engineKwargs: map<string, KwArg>)
    ensures SimilarityTopKKey in kwargs ==> engineKwargs == kwargs
    ensures SimilarityTopKKey !in kwargs && TopK(env, toInt) > 0 ==>
      engineKwargs == kwargs[SimilarityTopKKey := IntArg(TopK(env, toInt))]
    ensures SimilarityTopKKey !in kwargs && TopK(env, toInt) <= 0 ==> engineKwargs == kwargs
    ensures engineKwargs - {SimilarityTopKKey} == kwargs - {SimilarityTopKKey}
  {
    engineKwargs := kwargs;
    var topK := TopK(env, toInt);
    if SimilarityTopKKey !in engineKwargs && topK > 0 {
      engineKwargs := engineKwargs[SimilarityTopKKey := IntArg(topK)];
    }
  }

  /** The arguments of QueryEngineTool.from_defaults: name, description and the engine's keyword arguments. */
  datatype ToolRequest = ToolRequest(name: string, description: string, engineKwargs: map<string, KwArg>)

  /**
   * get_query_engine_tool: name and description default only when they are None (an empty
   * string is kept), and the engine is built by create_query_engine.
   */
  method GetQueryEngineTool(
    name: Option<string>, description: Option<string>,
    env: map<string, string>, toInt: string -> int, kwargs: map<string, KwArg>)
    returns (tool: ToolRequest)
    ensures name.Some? ==> tool.name == name.value
    ensures name.None? ==> tool.name == DefaultToolName
    ensures description.Some? ==> tool.description == description.value
    ensures description.None? ==> tool.description == DefaultToolDescription
    ensures SimilarityTopKKey in kwargs ==> tool.engineKwargs == kwargs
    ensures SimilarityTopKKey !in kwargs && TopK(env, toInt) > 0 ==>
      tool.engineKwargs == kwargs[SimilarityTopKKey := IntArg(TopK(env, toInt))]
    ensures SimilarityTopKKey !in kwargs && TopK(env, toInt) <= 0 ==> tool.engineKwargs == kwargs
  {
    var toolName := if name.None? then DefaultToolName else name.value;
    var toolDescription := if description.None? then DefaultToolDescription else description.value;
    var engineKwargs := CreateQueryEngine(env, toInt, kwargs);
    tool := ToolRequest(toolName, toolDescription, engineKwargs);
  }
}
