/** The lexical units the tokenizer emits and the tree builder consumes. */
module Tokens {

  import opened Wrappers

  /**
   * One token. Strings carry their raw lexeme, quotes included and no escape
   * decoded; numbers carry the natural number their digit run denotes.
   */
  datatype Token =
    | ObjectStart
    | ObjectEnd
    | ArrayStart
    | ArrayEnd
    | NameSeparator
    | ValueSeparator
    | String(text: seq<char>)
    | Number(value: nat)
    | Null
    | True
    | False
  {
    /** The six structural tokens, which carry no payload. */
    predicate IsStructural() {
      ObjectStart? || ObjectEnd? || ArrayStart? || ArrayEnd? || NameSeparator? || ValueSeparator?
    }

    /** Tokens that can stand for a leaf value of the tree. */
    predicate IsScalar() {
      String? || Number? || Null? || True? || False?
    }
  }

  /** The structural characters and the token each one stands for. */
  function StructuralToken(c: char): Option<Token>
  {
    match c
    case '{' => Some(ObjectStart)
    case '}' => Some(ObjectEnd)
    case '[' => Some(ArrayStart)
    case ']' => Some(ArrayEnd)
    case ':' => Some(NameSeparator)
    case ',' => Some(ValueSeparator)
    case _ => None
  }
}
