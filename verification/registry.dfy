/**
 * The function-call registry: a map from function name to handler, with registration,
 * lookup and dispatch. Handlers are values of a type parameter; parsing the argument
 * text is a parameter too.
 */
module Registry {
  import opened Common
  import opened Json

  /** What `executeFunction` does with a call. */
  datatype Dispatch<H> =
    | NoHandler(error: string)      // the JSON error object it returns
    | Malformed                     // parsing the arguments threw, and the exception propagates
    | Invoke(handler: H, args: Args) // it returns what the handler returns for these arguments

  const NoHandlerPrefix: string := "No handler registered for function: "

  /** The handlers after a series of registrations, from an empty registry. */
  function Registered<H>(registrations: seq<(string, H)>): map<string, H>
  {
    if registrations == [] then map[]
    else
      var last := registrations[|registrations| - 1];
      Registered(registrations[..|registrations| - 1])[last.0 := last.1]
  }

  /** The handler of the last registration under `name`, if there is one. */
  function LastRegistered<H>(registrations: seq<(string, H)>, name: string): Option<H>
  {
    if registrations == [] then None
    else if registrations[|registrations| - 1].0 == name then Some(registrations[|registrations| - 1].1)
    else LastRegistered(registrations[..|registrations| - 1], name)
  }

  /**
   * A name is known exactly when it was registered, and it is bound to the handler of its
   * last registration: registering a name again replaces its handler and no other.
   */
  lemma {:induction false} RegisteredIsLastRegistration<H>(registrations: seq<(string, H)>, name: string)
    ensures name in Registered(registrations) <==> LastRegistered(registrations, name).Some?
    ensures name in Registered(registrations) ==> Registered(registrations)[name] == LastRegistered(registrations, name).value
    decreases |registrations|
  {
    if registrations != [] {
      RegisteredIsLastRegistration(registrations[..|registrations| - 1], name);
    }
  }

  /** The registry of an assistant session. */
  class FunctionCallRegistry<H> {
    var handlers: map<string, H>

    constructor ()
      ensures handlers == map[]
    {
      handlers := map[];
    }

    /** `registerHandler(name, handler)`: binds the name, replacing any earlier handler for it. */
    method RegisterHandler(functionName: string, handler: H)
      modifies this
      ensures handlers == old(handlers)[functionName := handler]
    {
      handlers := handlers[functionName := handler];
    }

    /** `hasHandler(name)`. */
    method HasHandler(functionName: string) returns (known: bool)
      ensures known <==> functionName in handlers
    {
      known := functionName in handlers;
    }

    /**
     * `executeFunction(name, arguments)`: an unknown name gives an error object naming it,
     * before the arguments are looked at; a known one parses the arguments and hands them
     * to its handler.
     */
    method ExecuteFunction(functionName: string, arguments: string, parse: string -> Option<Args>) returns (d: Dispatch<H>)
      ensures functionName !in handlers ==> d == NoHandler(NoHandlerPrefix + functionName)
      ensures functionName in handlers && parse(arguments).None? ==> d == Malformed
      ensures functionName in handlers && parse(arguments).Some? ==> d == Invoke(handlers[functionName], parse(arguments).value)
    {
      if functionName !in handlers {
        return NoHandler(NoHandlerPrefix + functionName);
      }
      var handler := handlers[functionName];
      var args := parse(arguments);
      if args.None? {
        return Malformed;
      }
      d := Invoke(handler, args.value);
    }
  }
}
