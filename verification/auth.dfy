/**
 What the account screens see of the hosted auth service. Its calls are network I/O, so
 their replies are inputs to the model rather than something it computes.
 */
module Auth {
  import opened Wrappers
  import opened Text

  /** The role every account of this app carries in its user metadata, written in
      capitals: registration stores it and the login gate asks for it. */
  const ClientRole: string := "CLIENTE"

  /** The error object of an auth reply; its `message` may be absent. */
  datatype AuthError = AuthError(message: Option<string>)

  /** `error.message?.toLowerCase?.() || ""`: the lower-cased message, or the empty
      text when there is none. */
  function LowerMessage(e: AuthError): (t: string)
    ensures e.message.None? ==> t == ""
    ensures e.message.Some? ==> |t| == |e.message.value|
    ensures e.message.Some? ==> forall i :: 0 <= i < |t| ==> t[i] == LowerChar(e.message.value[i])
    ensures forall i :: 0 <= i < |t| ==> !IsAsciiUpper(t[i])
  {
    match e.message
    case None => ""
    case Some(m) => ToLowerAscii(m)
  }

  /** Lower-casing is already done by `LowerMessage`: a message and its lower-cased
      copy read the same. */
  lemma LowerMessageIgnoresCase(m: string)
    ensures LowerMessage(AuthError(Some(m))) == LowerMessage(AuthError(Some(ToLowerAscii(m))))
  {
  }
}
