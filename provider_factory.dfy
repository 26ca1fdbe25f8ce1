/**
  The provider registry: provider classes registered under lower-cased
  names, looked up case-insensitively, and instantiated with the
  construction errors wrapped. The registry is class-level state in the
  source; here it is the state of one `ProviderFactory` object.
 */
module ProviderFactory {
  import opened Wrappers
  import opened Errors
  import opened Text
  import opened ProviderBase
  import OpenAI

  /** What can be handed to `register_provider`. */
  datatype ProviderClass =
    | OpenAIProviderClass                                   // `OpenAIProvider`
    | OtherClass(className: string, inheritsProvider: bool) // any other class
    | NotAClass                                             // a value that is not a class at all

  /** `issubclass(cls, LLMProvider)`, which raises for a value that is not a class. */
  function SubclassCheck(cls: ProviderClass): (r: Outcome<Error>)
    ensures r.Pass? <==> IsProviderClass(cls)
    ensures cls == NotAClass ==> r == Fail(OtherError)
  {
    match cls
    case OpenAIProviderClass => Pass
    case OtherClass(_, inherits) => if inherits then Pass else Fail(LLMProviderError(NotAProviderClass))
    case NotAClass => Fail(OtherError)
  }

  predicate IsProviderClass(cls: ProviderClass)
  {
    cls.OpenAIProviderClass? || (cls.OtherClass? && cls.inheritsProvider)
  }

  /** The class-level `_providers` dictionary. */
  class ProviderRegistry {
    var providers: map<string, ProviderClass>
    /** The dictionary's insertion order. */
    var order: seq<string>

    /**
      Every name is listed once, in insertion order; every name is lower
      case; every registered value is a provider class.
     */
    ghost predicate Valid()
      reads this
    {
      (forall name :: name in providers <==> name in order)
      && (forall i, j :: 0 <= i < j < |order| ==> order[i] != order[j])
      && (forall name :: name in providers ==> LowerAscii(name) == name && IsProviderClass(providers[name]))
    }

    constructor ()
      ensures Valid()
      ensures providers == map["openai" := OpenAIProviderClass] && order == ["openai"]
    {
      providers := map["openai" := OpenAIProviderClass];
      order := ["openai"];
    }

    /** `is_provider_available(name)`: the lookup ignores ASCII case. */
    predicate IsProviderAvailable(name: string)
      reads this
    {
      LowerAscii(name) in providers
    }

    /**
      `register_provider(name, cls)`: a provider class is stored under the
      lower-cased name, replacing any earlier class in place; anything else
      is refused and leaves the registry as it was.
     */
    method RegisterProvider(name: string, cls: ProviderClass) returns (r: Outcome<Error>)
      requires Valid()
      modifies this
      ensures Valid()
      ensures r == SubclassCheck(cls)
      ensures r.Fail? ==> providers == old(providers) && order == old(order)
      ensures r.Pass? ==> providers == old(providers)[LowerAscii(name) := cls]
      ensures r.Pass? ==> order == if LowerAscii(name) in old(providers) then old(order) else old(order) + [LowerAscii(name)]
    {
      r := SubclassCheck(cls);
      if r.Fail? {
        return;
      }
      var key := LowerAscii(name);
      LowerAsciiIdempotent(name);
      if key !in providers {
        order := order + [key];
      }
      providers := providers[key := cls];
    }

    /** `get_available_providers()`: the registered names in insertion order. */
    method GetAvailableProviders() returns (names: seq<string>)
      requires Valid()
      ensures forall i, j :: 0 <= i < j < |names| ==> names[i] != names[j]
      ensures forall name :: name in names ==> IsProviderAvailable(name)
      ensures forall name :: IsProviderAvailable(name) ==> LowerAscii(name) in names
    {
      names := order;
      forall name | name in names ensures IsProviderAvailable(name) {
        assert LowerAscii(name) == name;
      }
    }

    /**
      `create_provider(name, **kwargs)`: an unknown name is refused; a known
      class is constructed and any error it raises is wrapped. The outcome of
      constructing a class other than `OpenAIProvider` is the parameter `other`.
     */
    method CreateProvider(name: string, apiKey: Option<string>, environment: Option<string>, model: string,
                          other: Result<LLMProvider, Error>)
      returns (r: Result<LLMProvider, Error>)
      requires Valid()
      ensures !IsProviderAvailable(name) ==> r == Err(LLMProviderError(UnsupportedProvider(name)))
      ensures IsProviderAvailable(name) && providers[LowerAscii(name)] == OpenAIProviderClass ==>
                && (r.Err? <==> OpenAI.ConstructionCheck(apiKey, environment, model).Fail?)
                && (r.Err? ==> r.error == LLMProviderError(ConstructionFailed(OpenAI.ConstructionCheck(apiKey, environment, model).error)))
                && (r.Ok? ==> fresh(r.value) && r.value.modelName == model
                              && r.value.capabilitySet == OpenAI.ModelCapabilities[model])
      ensures IsProviderAvailable(name) && providers[LowerAscii(name)].OtherClass? ==>
                r == if other.Err? then Err(LLMProviderError(ConstructionFailed(other.error))) else other
    {
      var key := LowerAscii(name);
      if key !in providers {
        return Err(LLMProviderError(UnsupportedProvider(name)));
      }
      var built: Result<LLMProvider, Error>;
      if providers[key] == OpenAIProviderClass {
        built := OpenAI.NewOpenAIProvider(apiKey, environment, model);
      } else {
        built := other;
      }
      if built.Err? {
        r := Err(LLMProviderError(ConstructionFailed(built.error)));
      } else {
        r := built;
      }
    }
  }
}
