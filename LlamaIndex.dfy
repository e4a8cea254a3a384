/**
 * Stand-ins for the llama_index objects that the citation code reads and
 * updates. Each keeps only the fields that code touches; everything the
 * library does with them is outside the model.
 */
module LlamaIndex {

  /**
   * The class of a query engine; the citation code only asks whether it is a RetrieverQueryEngine.
   * The tag RetrieverQueryEngine stands for any instance of that class, subclasses included (the
   * test is isinstance); OtherQueryEngine is an engine that is not such an instance.
   */
  datatype EngineClass = RetrieverQueryEngine | OtherQueryEngine(className: string)

  /** A prompt template: the citation prompt, or any other template a caller supplies. */
  datatype PromptTemplate = CitationPrompt | OtherTemplate(template: string)

  datatype ResponseSynthesizer =
    | CitationSynthesizer(textQaTemplate: PromptTemplate)
    | OtherSynthesizer(className: string)

  datatype NodePostprocessor = NodeCitationProcessor | OtherPostprocessor(className: string)

  /** The text node of a retrieved NodeWithScore (the score is never read or written). */
  class Node {
    var text: string
    var metadata: map<string, string>

    constructor (text: string, metadata: map<string, string>)
      ensures this.text == text && this.metadata == metadata
    {
      this.text := text;
      this.metadata := metadata;
    }
  }

  class QueryEngine {
    const engineClass: EngineClass
    var responseSynthesizer: ResponseSynthesizer
    var nodePostprocessors: seq<NodePostprocessor>

    constructor (engineClass: EngineClass, synthesizer: ResponseSynthesizer, postprocessors: seq<NodePostprocessor>)
      ensures this.engineClass == engineClass
      ensures responseSynthesizer == synthesizer && nodePostprocessors == postprocessors
    {
      this.engineClass := engineClass;
      responseSynthesizer := synthesizer;
      nodePostprocessors := postprocessors;
    }
  }

  /** A QueryEngineTool: its query engine and the name and description of its metadata. */
  class QueryEngineTool {
    var queryEngine: QueryEngine
    var name: string
    var description: string

    constructor (queryEngine: QueryEngine, name: string, description: string)
      ensures this.queryEngine == queryEngine && this.name == name && this.description == description
    {
      this.queryEngine := queryEngine;
      this.name := name;
      this.description := description;
    }
  }
}
