/** The greeting template (backend/templates/psychic.js): a fixed two-message conversation
    asking the model to invite the visitor to a reading. */
module Psychic {
  import opened Wrappers
  import opened Js
  import opened Chat

  const Persona: string :=
    "You are an esteemed, empathetic tarot psychic who speaks in short, vivid paragraphs. " +
    "Avoid concrete predictions; focus on possibilities and reflection."

  const Enticement: string := "Entice the requester to do a tarot reading in four sentences."

  /** The conversation every successful call returns. */
  const IntroMessages: seq<Message> := [Message("system", Persona), Message("user", Enticement)]

  /** `introPrompt(args)`: the parameter is an empty destructuring pattern with default `{}`,
      so only `null` fails (undefined takes the default); the result never depends on args.
      The user content is a one-element list joined with a space. */
  function IntroPrompt(args: JsValue): (r: Result<seq<Message>, Thrown>)
    ensures r.Failure? <==> args.Null?
    ensures r.Success? ==> |r.value| == 2
    ensures r.Success? ==> r.value[0] == Message("system", Persona)
    ensures r.Success? ==> r.value[1] == Message("user", Enticement)
  {
    if args.Null? then Failure(TypeError("destructure"))
    else Success([Message("system", Persona), Message("user", Join([Enticement], " "))])
  }

  /** Two calls that both succeed give the same conversation. */
  lemma IntroPromptConstant(a: JsValue, b: JsValue)
    requires !a.Null? && !b.Null?
    ensures IntroPrompt(a) == IntroPrompt(b) == Success(IntroMessages)
  {
  }
}
