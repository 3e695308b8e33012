/**
 * The two stages together: text that spells a value is tokenized into the
 * value's tokens, and the tree builder recovers the value from them.
 */
module Pipeline {

  import opened Wrappers
  import opened Tokens
  import opened Seqs
  import opened Lexer
  import Render
  import opened Values
  import opened Parser
  import opened Tree

  /** Every string and key of `json` is a lexeme the tokenizer reproduces exactly. */
  ghost predicate WellFormedJson(json: Json)
    decreases json
  {
    match json
    case JObject(ms) =>
      forall k :: 0 <= k < |ms| ==> Render.WellFormedText(ms[k].key) && WellFormedJson(ms[k].value)
    case JString(text) => Render.WellFormedText(text)
    case _ => true
  }

  lemma RenderableConcat(a: seq<Token>, b: seq<Token>)
    requires Render.AllRenderable(a) && Render.AllRenderable(b)
    ensures Render.AllRenderable(a + b)
  {
    forall k | 0 <= k < |a + b|
      ensures Render.Renderable((a + b)[k])
    {
      if k < |a| {
        assert (a + b)[k] == a[k];
      } else {
        assert (a + b)[k] == b[k - |a|];
      }
    }
  }

  /** The tokens of a well-formed value can all be rendered. */
  lemma {:induction false} EmitRenderable(json: Json)
    requires WellFormedJson(json)
    ensures Render.AllRenderable(Emit(json))
    decreases json, 1, 0, 0
  {
    if json.JObject? {
      EmitMembersRenderable(json, 0);
      RenderableConcat(EmitMembers(json, 0), [ObjectEnd]);
      RenderableConcat([ObjectStart], EmitMembers(json, 0) + [ObjectEnd]);
    }
  }

  lemma {:induction false} EmitMembersRenderable(json: Json, k: nat)
    requires json.JObject? && k <= |json.members| && WellFormedJson(json)
    ensures Render.AllRenderable(EmitMembers(json, k))
    decreases json, 0, |json.members| - k, 1
  {
    if k < |json.members| {
      var m := json.members[k];
      EmitRenderable(m.value);
      var tail := MemberTail(json, k);
      assert Render.AllRenderable(tail) by {
        if k + 1 < |json.members| {
          EmitMembersRenderable(json, k + 1);
          RenderableConcat([ValueSeparator], EmitMembers(json, k + 1));
        }
      }
      RenderableConcat(Emit(m.value), tail);
      RenderableConcat([String(m.key), NameSeparator], Emit(m.value) + tail);
    }
  }

  /** Tokenizing the printed tokens of a well-formed value gives back exactly those tokens. */
  lemma TokenizeEmitted(json: Json)
    requires WellFormedJson(json)
    ensures Tokenize(Render.Render(Emit(json))) == Success(Emit(json))
  {
    EmitRenderable(json);
    Render.TokenizeRender(Emit(json));
  }

  /**
   * Whatever tokens follow it, the tokens of a value parse into a document
   * whose root denotes that value: the tree builder keeps members in order,
   * keeps duplicate keys, and does not look past the root.
   */
  lemma ParseRecoversRoot(json: Json, rest: seq<Token>)
    ensures Parse(Emit(json) + rest).Success?
    ensures Abstract(Parse(Emit(json) + rest).value.root, Emit(json) + rest) == json
  {
    var ts := Emit(json) + rest;
    AtPlaced([], Emit(json), rest);
    assert [] + Emit(json) + rest == ts;
    AtIndex(ts, 0, Emit(json), 0);
    if json.JObject? {
      ParseEmittedObject(ts, 0, None, json);
    }
  }

  /** Text that spells a well-formed value is tokenized and parsed back into that value. */
  lemma TextRoundTrip(json: Json)
    requires WellFormedJson(json)
    ensures Tokenize(Render.Render(Emit(json))).Success?
    ensures Parse(Tokenize(Render.Render(Emit(json))).value).Success?
    ensures Abstract(Parse(Tokenize(Render.Render(Emit(json))).value).value.root,
                     Tokenize(Render.Render(Emit(json))).value) == json
  {
    TokenizeEmitted(json);
    ParseRecoversRoot(json, []);
    assert Emit(json) + [] == Emit(json);
  }

  /** Two members with the same key are both kept, in order. */
  lemma DuplicateKeysKept(key: seq<char>, a: Json, b: Json)
    ensures var json := JObject([JMember(key, a), JMember(key, b)]);
            && Parse(Emit(json)).Success?
            && Abstract(Parse(Emit(json)).value.root, Emit(json)) == json
  {
    var json := JObject([JMember(key, a), JMember(key, b)]);
    ParseRecoversRoot(json, []);
    assert Emit(json) + [] == Emit(json);
  }
}
