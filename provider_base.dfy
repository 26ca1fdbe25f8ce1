/**
  The provider abstraction shared by every LLM back end: the capability
  enumeration, the request, context and response records, and the state
  every provider object carries (its model name and capability set).
 */
module ProviderBase {
  import opened Wrappers

  datatype Capability =
    | CodeGeneration
    | CodeReview
    | CodeRefactoring
    | Documentation
    | Testing
    | Streaming
    | FunctionCalling
    | Vision

  /** The enumeration value of a capability. */
  function CapabilityValue(c: Capability): string
  {
    match c
    case CodeGeneration => "code_generation"
    case CodeReview => "code_review"
    case CodeRefactoring => "code_refactoring"
    case Documentation => "documentation"
    case Testing => "testing"
    case Streaming => "streaming"
    case FunctionCalling => "function_calling"
    case Vision => "vision"
  }

  /** Different capabilities have different values. */
  lemma CapabilityValueInjective(a: Capability, b: Capability)
    requires CapabilityValue(a) == CapabilityValue(b)
    ensures a == b
  {
  }

  /** `CodeContext` */
  datatype CodeContext = CodeContext(
    content: string,
    filepath: Option<string>,
    language: Option<string>,
    lineStart: Option<int>,
    lineEnd: Option<int>,
    dependencies: Option<seq<string>>)

  /** `GenerationRequest`; the temperature is a Python float, used only in a range check. */
  datatype GenerationRequest = GenerationRequest(
    instruction: string,
    context: Option<CodeContext>,
    maxTokens: int,
    temperature: real,
    stopSequences: seq<string>)

  /** `GenerationResponse` */
  datatype GenerationResponse = GenerationResponse(content: string, tokensUsed: int, model: string, finishReason: string)

  /** The dictionary `get_provider_info` returns. */
  datatype ProviderInfo = ProviderInfo(name: string, model: string, capabilities: seq<string>)

  /** The values of a set of capabilities, each once. */
  ghost predicate ListsValues(values: seq<string>, caps: set<Capability>)
  {
    |values| == |caps|
    && (forall v :: v in values <==> exists c :: c in caps && CapabilityValue(c) == v)
    && forall i, j :: 0 <= i < j < |values| ==> values[i] != values[j]
  }

  /** `LLMProvider`: the state common to all providers. */
  class LLMProvider {
    /** `self.__class__.__name__` */
    const className: string
    var modelName: string
    var capabilitySet: set<Capability>

    /** `LLMProvider.__init__(model_name)`: no capabilities yet. */
    constructor (className: string, modelName: string)
      ensures this.className == className && this.modelName == modelName && capabilitySet == {}
    {
      this.className := className;
      this.modelName := modelName;
      capabilitySet := {};
    }

    /** `supports_capability(c)` */
    predicate SupportsCapability(c: Capability)
      reads this
    {
      c in capabilitySet
    }

    /**
      The `capabilities` property. Dafny sets are values, so what the caller
      receives is a copy: nothing done with it reaches the provider.
     */
    method Capabilities() returns (caps: set<Capability>)
      ensures caps == capabilitySet
      ensures forall c :: c in caps <==> SupportsCapability(c)
    {
      caps := capabilitySet;
    }

    /** `get_provider_info()`: the capability values, in the set's iteration order. */
    method GetProviderInfo() returns (info: ProviderInfo)
      ensures info.name == className && info.model == modelName
      ensures ListsValues(info.capabilities, capabilitySet)
    {
      var values: seq<string> := [];
      var rest := capabilitySet;
      while rest != {}
        invariant rest <= capabilitySet
        invariant ListsValues(values, capabilitySet - rest)
        decreases |rest|
      {
        var c :| c in rest;
        ListsValuesStep(values, capabilitySet - rest, c);
        values := values + [CapabilityValue(c)];
        assert capabilitySet - (rest - {c}) == (capabilitySet - rest) + {c};
        rest := rest - {c};
      }
      info := ProviderInfo(className, modelName, values);
    }
  }

  /** Appending the value of a capability not yet listed keeps the listing exact. */
  lemma ListsValuesStep(values: seq<string>, done: set<Capability>, c: Capability)
    requires ListsValues(values, done) && c !in done
    ensures ListsValues(values + [CapabilityValue(c)], done + {c})
  {
    var v := CapabilityValue(c);
    forall i | 0 <= i < |values| ensures values[i] != v {
      assert values[i] in values;
      var d :| d in done && CapabilityValue(d) == values[i];
      if values[i] == v {
        CapabilityValueInjective(c, d);
      }
    }
  }
}
