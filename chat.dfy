/** A chat message as the prompt templates build it: an object literal with a string role
    and a string content. */
module Chat {
  import opened Js

  datatype Message = Message(role: string, content: string)

  /** The object `{ role, content }` the template returns. */
  function AsValue(m: Message): (v: JsValue)
    ensures v.Obj? && Get(v, "role") == Str(m.role) && Get(v, "content") == Str(m.content)
  {
    Obj(map["role" := Str(m.role), "content" := Str(m.content)])
  }

  /** The array of message objects a template returns. */
  function AsValues(ms: seq<Message>): (vs: seq<JsValue>)
    ensures |vs| == |ms| && forall i :: 0 <= i < |ms| ==> vs[i] == AsValue(ms[i])
  {
    seq(|ms|, i requires 0 <= i < |ms| => AsValue(ms[i]))
  }
}
