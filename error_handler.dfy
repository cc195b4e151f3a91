/** `handleError`: the shared error reply of the utilities. */
module ErrorHandler {
  import opened Js
  import opened Http
  import opened Errors

  const DefaultMessage: string := "Ocurrió un error inesperado."

  /**
   * `handleError(res, error, defaultMessage)`, with `defaultMessage` None when the caller leaves it out and `nodeEnv`
   * the value of NODE_ENV. An empty error message is falsy, so the default takes its place.
   */
  function HandleError(e: Exception, defaultMessage: Option<string>, nodeEnv: Option<string>): (r: Response)
    ensures r.status == StatusOr500(e) && r.body.Keys == {"message", "error"}
    ensures e.message != "" ==> Get(r.body, "message") == Str(e.message)
    ensures e.message == "" ==>
              Get(r.body, "message") == Str(if defaultMessage.Some? then defaultMessage.value else DefaultMessage)
    ensures Get(r.body, "error") == (if nodeEnv == Some("development") then Str(e.message) else Undefined)
  {
    var fallback := if defaultMessage.Some? then defaultMessage.value else DefaultMessage;
    var message := if Truthy(Str(e.message)) then e.message else fallback;
    Envelope(StatusOr500(e), Str(message), if nodeEnv == Some("development") then Str(e.message) else Undefined)
  }

  /**
   * Outside development the error's text is withheld only from `error`: a non-empty message still reaches the client
   * through `message`, so the two environments send the same text.
   */
  lemma EnvironmentOnlyHidesError(e: Exception, defaultMessage: Option<string>, env: Option<string>)
    ensures var dev := HandleError(e, defaultMessage, Some("development"));
            var other := HandleError(e, defaultMessage, env);
            dev.status == other.status && Get(dev.body, "message") == Get(other.body, "message") &&
            (env != Some("development") ==> Get(other.body, "error") == Undefined && Get(dev.body, "error") == Str(e.message))
  {
  }

  /** The reply never has an empty message unless the caller passed an empty default. */
  lemma MessageNeverEmpty(e: Exception, defaultMessage: Option<string>, nodeEnv: Option<string>)
    requires defaultMessage.None? || defaultMessage.value != ""
    ensures Get(HandleError(e, defaultMessage, nodeEnv).body, "message") != Str("")
  {
  }
}
