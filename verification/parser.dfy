/**
 * The recursive-descent tree builder: the top-level dispatch of `main` and
 * `parse_obj`, threading the token cursor through the productions.
 */
module Parser {

  import opened Wrappers
  import opened Tokens
  import opened Storage
  import opened Values

  /**
   * Why the tokens do not form a document. An index equal to the number of
   * tokens means the token stream ended where another token was needed.
   */
  datatype ParseError =
    | EmptyDocument
      // `}`, `]`, `:` or `,` as the first token
    | UnexpectedAtRoot(index: nat)
      // `[` as the first token: no production handles an array root
    | ArrayRootUnsupported(index: nat)
      // a member key not followed by `:`
    | MissingNameSeparator(index: nat)
      // a token that starts no value where a member value belongs
    | UnexpectedMemberValue(index: nat)
      // a member list not closed by `}`
    | UnexpectedInObject(index: nat)

  /** How the member loop goes on after a member's value ended at a given index. */
  datatype MemberEnd =
    | Continue(next: nat)  // a `,` was consumed: look for another key at `next`
    | Close(at: nat)       // the loop is over: `}` must be the token at `at`

  /** The corrected member loop tail: consume `,` only when present, then check `}` right there. */
  function AfterMember(ts: seq<Token>, j: nat): (e: MemberEnd)
    requires j <= |ts|
    ensures e.Continue? <==> j < |ts| && ts[j] == ValueSeparator
    ensures e.Continue? ==> e.next == j + 1
    ensures e.Close? ==> e.at == j
  {
    if j < |ts| && ts[j] == ValueSeparator then Continue(j + 1) else Close(j)
  }

  /**
   * The member loop tail as written: the token after the value is consumed
   * whether or not it is a `,`, so the closing check looks one token further.
   */
  function AfterMemberAsWritten(ts: seq<Token>, j: nat): (e: MemberEnd)
    requires j <= |ts|
    ensures e.Continue? <==> j < |ts| && ts[j] == ValueSeparator
    ensures e.Continue? ==> e.next == j + 1
    ensures e.Close? ==> e.at == j + 1
  {
    if j < |ts| && ts[j] == ValueSeparator then Continue(j + 1) else Close(j + 1)
  }

  /**
   * The value production at cursor `i`: a leaf for a scalar token, an object
   * for `{` and also for `[` (arrays are handed to the object production).
   * Returns the value and the cursor one past it.
   */
  function ParseValue(ts: seq<Token>, i: nat, parent: Option<nat>): (r: Result<(Value, nat), ParseError>)
    requires i <= |ts|
    ensures r.Success? ==> i < r.value.1 <= |ts|
    ensures r.Success? ==> Anchored(r.value.0, ts, i) && r.value.0.parent == parent
    ensures r.Success? ==> (r.value.0.Object? <==> ts[i].ObjectStart? || ts[i].ArrayStart?)
    ensures r.Success? && r.value.0.Scalar? ==> r.value.0.token == i && r.value.1 == i + 1
    ensures r.Success? && r.value.0.Object? ==> ts[r.value.1 - 1] == ObjectEnd
    ensures i < |ts| && ts[i].IsScalar() ==> r.Success?
    ensures i == |ts| ==> r == Failure(UnexpectedMemberValue(i))
    ensures i < |ts| && ts[i].IsStructural() && !ts[i].ObjectStart? && !ts[i].ArrayStart? ==>
              r == Failure(UnexpectedMemberValue(i))
    ensures r.Failure? && r.error.UnexpectedInObject? ==>
              !(r.error.index < |ts| && ts[r.error.index] == ObjectEnd)
    decreases |ts| - i, 2
  {
    if i == |ts| then
      Failure(UnexpectedMemberValue(i))
    else
      match ts[i]
      case ObjectStart => ParseObject(ts, i, parent)
      case ArrayStart => ParseObject(ts, i, parent)
      case String(_) => Success((NewScalar(StringKind, i, parent), i + 1))
      case Number(_) => Success((NewScalar(NumberKind, i, parent), i + 1))
      case Null => Success((NewScalar(NullKind, i, parent), i + 1))
      case False => Success((NewScalar(FalseKind, i, parent), i + 1))
      case True => Success((NewScalar(TrueKind, i, parent), i + 1))
      case _ => Failure(UnexpectedMemberValue(i))
  }

  /**
   * The object production (`parse_obj`) for the opening token at `open`: the
   * members that follow it, then a closing `}`. Returns the object and the
   * cursor one past the `}`.
   */
  function ParseObject(ts: seq<Token>, open: nat, parent: Option<nat>): (r: Result<(Value, nat), ParseError>)
    requires open < |ts|
    ensures r.Success? ==> open + 2 <= r.value.1 <= |ts| && ts[r.value.1 - 1] == ObjectEnd
    ensures r.Success? ==> r.value.0.parent == parent && MembersSound(r.value.0, ts, open, r.value.1)
    ensures r.Failure? && r.error.UnexpectedInObject? ==>
              !(r.error.index < |ts| && ts[r.error.index] == ObjectEnd)
    decreases |ts| - open, 1
  {
    var members :- ParseMembers(ts, open + 1, open, NewObject(parent));
    var (obj, at) := members;
    if at < |ts| && ts[at] == ObjectEnd then
      MembersSoundWiden(obj, ts, open, at, at + 1);
      Success((obj, at + 1))
    else
      Failure(UnexpectedInObject(at))
  }

  /**
   * The member loop of `parse_obj` from cursor `i`, appending each (key, value)
   * member to `obj` in the order met. Returns the object and the index where
   * the closing `}` must stand.
   */
  function ParseMembers(ts: seq<Token>, i: nat, open: nat, obj: Value): (r: Result<(Value, nat), ParseError>)
    requires open < i <= |ts|
    requires MembersSound(obj, ts, open, i)
    ensures r.Success? ==> i <= r.value.1 <= |ts|
    ensures r.Success? ==> r.value.0.parent == obj.parent && MembersSound(r.value.0, ts, open, r.value.1)
    ensures r.Success? ==> && obj.members.Count() <= r.value.0.members.Count()
                           && r.value.0.members.entries[..obj.members.Count()] == obj.members.entries
    ensures i == |ts| || !ts[i].String? ==> r == Success((obj, i))
    ensures i < |ts| && ts[i].String? && (i + 1 == |ts| || ts[i + 1] != NameSeparator) ==>
              r == Failure(MissingNameSeparator(i + 1))
    ensures i + 1 < |ts| && ts[i].String? && ts[i + 1] == NameSeparator && ParseValue(ts, i + 2, Some(open)).Failure? ==>
              r == Failure(ParseValue(ts, i + 2, Some(open)).error)
    ensures i + 1 < |ts| && ts[i].String? && ts[i + 1] == NameSeparator && ParseValue(ts, i + 2, Some(open)).Success? ==>
              var (value, j) := ParseValue(ts, i + 2, Some(open)).value;
              j == |ts| || ts[j] != ValueSeparator ==> r == Success((AddEntry(obj, i, value), j))
    ensures r.Failure? && r.error.UnexpectedInObject? ==>
              !(r.error.index < |ts| && ts[r.error.index] == ObjectEnd)
    decreases |ts| - i, 0
  {
    if i < |ts| && ts[i].String? then
      if i + 1 == |ts| || ts[i + 1] != NameSeparator then
        Failure(MissingNameSeparator(i + 1))
      else
        var member :- ParseValue(ts, i + 2, Some(open));
        var (value, j) := member;
        var obj' := AddEntry(obj, i, value);
        MembersSoundAppend(obj, ts, open, i, value, j);
        match AfterMember(ts, j)
        case Continue(k) => ParseMembers(ts, k, open, obj')
        case Close(k) => Success((obj', k))
    else
      Success((obj, i))
  }

  /**
   * What the member loop keeps of the object it builds: it is an object, its
   * token references are sound and every parent link below it leads back to
   * the token that opened it, and its keys occur in order strictly between
   * the opening token and `bound`.
   */
  ghost predicate MembersSound(obj: Value, ts: seq<Token>, open: nat, bound: nat) {
    && obj.Object?
    && Anchored(obj, ts, open)
    && KeysAscending(obj.members.entries)
    && forall k :: 0 <= k < obj.members.Count() ==> open < obj.members.entries[k].key < bound
  }

  lemma MembersSoundWiden(obj: Value, ts: seq<Token>, open: nat, bound: nat, bound': nat)
    requires MembersSound(obj, ts, open, bound) && bound <= bound'
    ensures MembersSound(obj, ts, open, bound')
  {
  }

  /**
   * Appending a member whose key is at `key`, whose value names this object as
   * its parent and ends before `j`, keeps the loop's invariant.
   */
  lemma MembersSoundAppend(obj: Value, ts: seq<Token>, open: nat, key: nat, value: Value, j: nat)
    requires MembersSound(obj, ts, open, key)
    requires open < key && key + 1 < |ts| && ts[key].String? && ts[key + 1] == NameSeparator
    requires Anchored(value, ts, key + 2) && value.parent == Some(open) && key < j
    ensures MembersSound(AddEntry(obj, key, value), ts, open, j)
    ensures MembersSound(AddEntry(obj, key, value), ts, open, j + 1)
  {
    AppendAnchored(obj, ts, open, key, value, j);
    AppendAscending(obj, ts, open, key, value);
    MembersSoundWiden(AddEntry(obj, key, value), ts, open, j, j + 1);
  }

  lemma AppendAnchored(obj: Value, ts: seq<Token>, open: nat, key: nat, value: Value, j: nat)
    requires MembersSound(obj, ts, open, key)
    requires open < key && key + 1 < |ts| && ts[key].String? && ts[key + 1] == NameSeparator
    requires Anchored(value, ts, key + 2) && value.parent == Some(open) && key < j
    ensures AddEntry(obj, key, value).Object? && Anchored(AddEntry(obj, key, value), ts, open)
    ensures forall k :: 0 <= k < AddEntry(obj, key, value).members.Count() ==>
              open < AddEntry(obj, key, value).members.entries[k].key < j
  {
    var obj' := AddEntry(obj, key, value);
    var n := obj.members.Count();
    forall k | 0 <= k < obj'.members.Count()
      ensures EntryAnchored(obj'.members.entries[k], ts, open)
      ensures open < obj'.members.entries[k].key < j
    {
      if k < n {
        assert obj'.members.entries[k] == obj'.members.entries[..n][k];
      }
    }
  }

  lemma AppendAscending(obj: Value, ts: seq<Token>, open: nat, key: nat, value: Value)
    requires MembersSound(obj, ts, open, key)
    ensures KeysAscending(AddEntry(obj, key, value).members.entries)
  {
    var obj' := AddEntry(obj, key, value);
    var n := obj.members.Count();
    forall a, b | 0 <= a < b < obj'.members.Count()
      ensures obj'.members.entries[a].key < obj'.members.entries[b].key
    {
      assert obj'.members.entries[a] == obj'.members.entries[..n][a];
      if b < n {
        assert obj'.members.entries[b] == obj'.members.entries[..n][b];
      }
    }
  }

  /** `{}` yields an object with no members, and the cursor ends one past the `}`. */
  lemma EmptyObject(ts: seq<Token>, open: nat, parent: Option<nat>)
    requires open + 1 < |ts| && ts[open + 1] == ObjectEnd
    ensures ParseObject(ts, open, parent) == Success((NewObject(parent), open + 2))
    ensures ParseObject(ts, open, parent).value.0.members.Count() == 0
  {
  }

  /** A member list the loop ends anywhere but at a `}` is an error at that token. */
  lemma UnclosedObjectRejected(ts: seq<Token>, open: nat, parent: Option<nat>)
    requires open < |ts|
    requires ParseMembers(ts, open + 1, open, NewObject(parent)).Success?
    requires var at := ParseMembers(ts, open + 1, open, NewObject(parent)).value.1;
             !(at < |ts| && ts[at] == ObjectEnd)
    ensures ParseObject(ts, open, parent)
            == Failure(UnexpectedInObject(ParseMembers(ts, open + 1, open, NewObject(parent)).value.1))
  {
  }

  /**
   * Members must be separated by `,`: when the member loop of the object at
   * `open` reaches a member at `i` (with `obj` holding the members before it),
   * and that member's value is followed by anything but `,` or `}`, or by the
   * end of the tokens, the object is an error at that index.
   */
  lemma MissingSeparatorRejected(ts: seq<Token>, open: nat, parent: Option<nat>, i: nat, obj: Value)
    requires open < i && i + 1 < |ts| && MembersSound(obj, ts, open, i)
    requires ParseMembers(ts, open + 1, open, NewObject(parent)) == ParseMembers(ts, i, open, obj)
    requires ts[i].String? && ts[i + 1] == NameSeparator
    requires ParseValue(ts, i + 2, Some(open)).Success?
    requires var j := ParseValue(ts, i + 2, Some(open)).value.1;
             j == |ts| || (ts[j] != ValueSeparator && ts[j] != ObjectEnd)
    ensures ParseObject(ts, open, parent) == Failure(UnexpectedInObject(ParseValue(ts, i + 2, Some(open)).value.1))
  {
  }

  /** The first member of an object is reached by its member loop. */
  lemma FirstMemberRejected(ts: seq<Token>, open: nat, parent: Option<nat>)
    requires open + 2 < |ts| && ts[open + 1].String? && ts[open + 2] == NameSeparator
    requires ParseValue(ts, open + 3, Some(open)).Success?
    requires var j := ParseValue(ts, open + 3, Some(open)).value.1;
             j == |ts| || (ts[j] != ValueSeparator && ts[j] != ObjectEnd)
    ensures ParseObject(ts, open, parent) == Failure(UnexpectedInObject(ParseValue(ts, open + 3, Some(open)).value.1))
  {
    MissingSeparatorRejected(ts, open, parent, open + 1, NewObject(parent));
  }

  /** An error in the first member's value is the object's error. */
  lemma MemberValueErrorRejected(ts: seq<Token>, open: nat, parent: Option<nat>)
    requires open + 2 < |ts| && ts[open + 1].String? && ts[open + 2] == NameSeparator
    requires ParseValue(ts, open + 3, Some(open)).Failure?
    ensures ParseObject(ts, open, parent) == Failure(ParseValue(ts, open + 3, Some(open)).error)
  {
  }

  /** `{` and `[` in value position both run the object production, with its result and its error. */
  lemma ValueRunsObject(ts: seq<Token>, i: nat, parent: Option<nat>)
    requires i < |ts| && (ts[i].ObjectStart? || ts[i].ArrayStart?)
    ensures ParseValue(ts, i, parent) == ParseObject(ts, i, parent)
  {
  }

  /** An error inside the member loop is the object's error. */
  lemma ObjectPropagatesMemberError(ts: seq<Token>, open: nat, parent: Option<nat>)
    requires open < |ts| && ParseMembers(ts, open + 1, open, NewObject(parent)).Failure?
    ensures ParseObject(ts, open, parent) == Failure(ParseMembers(ts, open + 1, open, NewObject(parent)).error)
  {
  }

  /**
   * An error inside an object nested as the first member's value, as in
   * `{"x":{"a":1 "b":2}}`, is the error of the whole document.
   */
  lemma NestedErrorRejected(ts: seq<Token>)
    requires 3 < |ts| && ts[0] == ObjectStart && ts[1].String? && ts[2] == NameSeparator
    requires ts[3] == ObjectStart && ParseObject(ts, 3, Some(0)).Failure?
    ensures Parse(ts) == Failure(ParseObject(ts, 3, Some(0)).error)
  {
    ValueRunsObject(ts, 3, Some(0));
    MemberValueErrorRejected(ts, 0, None);
  }

  /** `{"a" 1}` is not a document: the key has no `:` after it. */
  lemma MissingNameSeparatorRejected()
    ensures Parse([ObjectStart, String("\"a\""), Number(1), ObjectEnd]) == Failure(MissingNameSeparator(2))
  {
  }

  /** `{"a":1 "b":2}`, with no `,` between its members, is not a document. */
  lemma UnseparatedMembersRejected()
    ensures Parse([ObjectStart, String("\"a\""), NameSeparator, Number(1), String("\"b\""), NameSeparator, Number(2), ObjectEnd])
            == Failure(UnexpectedInObject(4))
  {
  }

  /** The unclosed `{"a":1` is not a document: the tokens end where `}` belongs. */
  lemma UnclosedDocumentRejected()
    ensures Parse([ObjectStart, String("\"a\""), NameSeparator, Number(1)]) == Failure(UnexpectedInObject(4))
  {
  }

  /**
   * A `,` directly followed by `}` ends the member list: the member before
   * the `,` is appended and the loop stops at the `}`.
   */
  lemma TrailingCommaAccepted(ts: seq<Token>, i: nat, open: nat, obj: Value)
    requires open < i && i + 1 < |ts| && MembersSound(obj, ts, open, i)
    requires ts[i].String? && ts[i + 1] == NameSeparator
    requires ParseValue(ts, i + 2, Some(open)).Success?
    requires var j := ParseValue(ts, i + 2, Some(open)).value.1;
             j + 1 < |ts| && ts[j] == ValueSeparator && ts[j + 1] == ObjectEnd
    ensures ParseMembers(ts, i, open, obj).Success?
    ensures ParseMembers(ts, i, open, obj).value.1 == ParseValue(ts, i + 2, Some(open)).value.1 + 1
    ensures ParseMembers(ts, i, open, obj).value.0
            == AddEntry(obj, i, ParseValue(ts, i + 2, Some(open)).value.0)
  {
    var j := ParseValue(ts, i + 2, Some(open)).value.1;
    MembersSoundAppend(obj, ts, open, i, ParseValue(ts, i + 2, Some(open)).value.0, j);
  }

  /**
   * The top-level dispatch on the first token: an object root is parsed by the
   * object production, a scalar first token is the whole document, anything
   * else is rejected. Tokens after the root are not examined.
   */
  function Parse(ts: seq<Token>): (r: Result<Document, ParseError>)
    ensures |ts| == 0 ==> r == Failure(EmptyDocument)
    ensures r.Success? ==> Anchored(r.value.root, ts, 0) && r.value.root.parent == None
    ensures r.Success? ==> (r.value.root.Object? <==> ts[0] == ObjectStart)
    ensures 0 < |ts| && ts[0].IsScalar() ==> r.Success? && r.value.root.Scalar? && r.value.root.token == 0
    ensures 0 < |ts| && ts[0] == ObjectStart ==>
              && (r.Success? <==> ParseObject(ts, 0, None).Success?)
              && (r.Success? ==> r.value.root == ParseObject(ts, 0, None).value.0)
              && (r.Failure? ==> r.error == ParseObject(ts, 0, None).error)
    ensures 0 < |ts| && ts[0] == ArrayStart ==> r == Failure(ArrayRootUnsupported(0))
    ensures 0 < |ts| && ts[0] in {ObjectEnd, ArrayEnd, NameSeparator, ValueSeparator} ==>
              r == Failure(UnexpectedAtRoot(0))
  {
    if |ts| == 0 then
      Failure(EmptyDocument)
    else
      match ts[0]
      case ObjectStart =>
        var root :- ParseObject(ts, 0, None);
        Success(Document(root.0))
      case ArrayStart => Failure(ArrayRootUnsupported(0))
      case String(_) => Success(Document(NewScalar(StringKind, 0, None)))
      case Number(_) => Success(Document(NewScalar(NumberKind, 0, None)))
      case Null => Success(Document(NewScalar(NullKind, 0, None)))
      case True => Success(Document(NewScalar(TrueKind, 0, None)))
      case False => Success(Document(NewScalar(FalseKind, 0, None)))
      case _ => Failure(UnexpectedAtRoot(0))
  }

  /**
   * The value production as written: as `ParseValue`, except that nested
   * objects are parsed by the member loop as written.
   */
  function ParseValueAsWritten(ts: seq<Token>, i: nat, parent: Option<nat>): (r: Result<(Value, nat), ParseError>)
    requires i <= |ts|
    ensures r.Success? ==> i < r.value.1 <= |ts|
    ensures r.Success? && r.value.0.Scalar? ==> r.value.0.token == i && r.value.1 == i + 1
    decreases |ts| - i, 2
  {
    if i == |ts| then
      Failure(UnexpectedMemberValue(i))
    else
      match ts[i]
      case ObjectStart => ParseObjectAsWritten(ts, i, parent)
      case ArrayStart => ParseObjectAsWritten(ts, i, parent)
      case String(_) => Success((NewScalar(StringKind, i, parent), i + 1))
      case Number(_) => Success((NewScalar(NumberKind, i, parent), i + 1))
      case Null => Success((NewScalar(NullKind, i, parent), i + 1))
      case False => Success((NewScalar(FalseKind, i, parent), i + 1))
      case True => Success((NewScalar(TrueKind, i, parent), i + 1))
      case _ => Failure(UnexpectedMemberValue(i))
  }

  /** The object production as written: the closing check at the index the member loop as written reports. */
  function ParseObjectAsWritten(ts: seq<Token>, open: nat, parent: Option<nat>): (r: Result<(Value, nat), ParseError>)
    requires open < |ts|
    ensures r.Success? ==> open + 2 <= r.value.1 <= |ts| && ts[r.value.1 - 1] == ObjectEnd
    decreases |ts| - open, 1
  {
    var members :- ParseMembersAsWritten(ts, open + 1, open, NewObject(parent));
    var (obj, at) := members;
    if at < |ts| && ts[at] == ObjectEnd then Success((obj, at + 1)) else Failure(UnexpectedInObject(at))
  }

  /** The member loop as written: after each member the next token is consumed, `,` or not. */
  function ParseMembersAsWritten(ts: seq<Token>, i: nat, open: nat, obj: Value): (r: Result<(Value, nat), ParseError>)
    requires open < i <= |ts| && obj.Object? && obj.members.Valid()
    ensures r.Success? ==> i <= r.value.1 <= |ts| + 1 && r.value.0.Object? && r.value.0.members.Valid()
    ensures r.Success? ==> obj.members.Count() <= r.value.0.members.Count()
    decreases |ts| - i, 0
  {
    if i < |ts| && ts[i].String? then
      if i + 1 == |ts| || ts[i + 1] != NameSeparator then
        Failure(MissingNameSeparator(i + 1))
      else
        var member :- ParseValueAsWritten(ts, i + 2, Some(open));
        var (value, j) := member;
        var obj' := AddEntry(obj, i, value);
        match AfterMemberAsWritten(ts, j)
        case Continue(k) => ParseMembersAsWritten(ts, k, open, obj')
        case Close(k) => Success((obj', k))
    else
      Success((obj, i))
  }

  /**
   * A member whose scalar value is followed directly by `}`: the corrected
   * loop stops at that `}`, the loop as written reports the index after it,
   * so the closing check as written never sees the `}` that closes the object.
   */
  lemma AsWrittenLooksPastClose(ts: seq<Token>, i: nat, open: nat, obj: Value)
    requires open < i && i + 3 < |ts| && MembersSound(obj, ts, open, i)
    requires ts[i].String? && ts[i + 1] == NameSeparator && ts[i + 2].IsScalar() && ts[i + 3] == ObjectEnd
    ensures ParseMembers(ts, i, open, obj).Success? && ParseMembers(ts, i, open, obj).value.1 == i + 3
    ensures ParseMembersAsWritten(ts, i, open, obj).Success? && ParseMembersAsWritten(ts, i, open, obj).value.1 == i + 4
  {
    assert ParseValue(ts, i + 2, Some(open)).value.1 == i + 3;
    assert ParseValueAsWritten(ts, i + 2, Some(open)).value.1 == i + 3;
  }

  /** `{"a":1}`: the corrected production accepts it, the production as written reports an error past the last token. */
  lemma AsWrittenRejectsOneMember()
    ensures Parse([ObjectStart, String("\"a\""), NameSeparator, Number(1), ObjectEnd]).Success?
    ensures ParseObjectAsWritten([ObjectStart, String("\"a\""), NameSeparator, Number(1), ObjectEnd], 0, None)
            == Failure(UnexpectedInObject(5))
  {
    var ts := [ObjectStart, String("\"a\""), NameSeparator, Number(1), ObjectEnd];
    AsWrittenLooksPastClose(ts, 1, 0, NewObject(None));
  }
}
