/**
 * Form render arrays and what a submit handler leaves behind: a status
 * message (kept as its placeholder values) and a redirect path.
 */
module FormApi {

  /** The value of a hidden element. */
  datatype Value = IntValue(i: int) | StringValue(s: string) | BoolValue(b: bool)

  /** The element kinds the two forms build. */
  datatype Element =
    | Hidden(value: Value)
    | TextField(title: string, defaultValue: string)
    | Checkbox(title: string, checked: bool)
    | SubmitButton(caption: string)

  /** A render array: element key to element; an empty map is no form. */
  type Form = map<string, Element>

  /** The placeholders of "'@nodeTitle' [@nodeId] has been copied as
      '@copyTitle' [@copyId]." */
  datatype Message = Message(sourceTitle: string, sourceId: nat, copyTitle: string, copyId: nat)

  /** Where the PHP code stops with an error rather than returning. */
  datatype Failure =
    | SourceNotFound       // Node::load returned NULL and a method is called on it
    | TranslationNotFound  // getTranslation() of a language the node lacks
    | CommentFieldUnknown  // set('comment', ...) on a type without a comment field

  /** The result of a submit: an error, a replicator that returned nothing
      (no message, no redirect), or a copy with its message and redirect. */
  datatype Outcome =
    | Fatal(failure: Failure)
    | NotCopied
    | Copied(message: Message, redirect: string)
}
