/**
 * The value tree: nodes built by `new_json_value`, object members appended by
 * `add_obj_entry`. Tokens are referred to by their index in the token
 * sequence, and a node's parent by the index of the token that opened the
 * enclosing object (a non-owning handle).
 */
module Values {

  import opened Wrappers
  import opened Tokens
  import opened Storage

  datatype ScalarKind = StringKind | NumberKind | NullKind | TrueKind | FalseKind

  /** The leaf kind a scalar token stands for; structural tokens stand for none. */
  function ScalarKindOf(t: Token): (k: Option<ScalarKind>)
    ensures k.Some? <==> t.IsScalar()
  {
    match t
    case String(_) => Some(StringKind)
    case Number(_) => Some(NumberKind)
    case Null => Some(NullKind)
    case True => Some(TrueKind)
    case False => Some(FalseKind)
    case _ => None
  }

  /** An object member: the index of its key token and the member's value. */
  datatype Entry = Entry(key: nat, value: Value)

  datatype Value =
    | Object(members: Members<Entry>, parent: Option<nat>)
    | Scalar(kind: ScalarKind, token: nat, parent: Option<nat>)

  /** A parsed document: exactly one root value. */
  datatype Document = Document(root: Value)

  /** A fresh object node: no members, the initial capacity, the parent the caller names. */
  function NewObject(parent: Option<nat>): (v: Value)
    ensures v.Object? && v.parent == parent
    ensures v.members.Valid() && v.members.Count() == 0
    ensures v.members.capacity == InitialCapacity
  {
    Object(Empty(), parent)
  }

  /** A fresh leaf node of the kind the caller names, referring to the token at `token`. */
  function NewScalar(kind: ScalarKind, token: nat, parent: Option<nat>): (v: Value)
    ensures v.Scalar? && v.kind == kind && v.token == token && v.parent == parent
  {
    Scalar(kind, token, parent)
  }

  /**
   * The node constructor as written: the requested kind and parent are both
   * overwritten, so every node starts as an empty object with no parent.
   * `kind` is `None` for an object request.
   */
  function NewValueAsWritten(kind: Option<ScalarKind>, parent: Option<nat>): (v: Value)
    ensures v.Object? && v.parent == None
    ensures v.members.Valid() && v.members.Count() == 0
  {
    Object(Empty(), None)
  }

  /** A requested string leaf with a parent comes out as a parentless object; the corrected constructors keep both. */
  lemma AsWrittenForgetsKindAndParent(token: nat, parent: nat)
    ensures !NewValueAsWritten(Some(StringKind), Some(parent)).Scalar?
    ensures NewScalar(StringKind, token, Some(parent)).Scalar?
    ensures NewValueAsWritten(None, Some(parent)).parent != NewObject(Some(parent)).parent
  {
  }

  /**
   * Appends a (key, value) member to an object: one more member, the earlier
   * ones unchanged, the capacity doubled only when it was full.
   */
  function AddEntry(obj: Value, key: nat, value: Value): (r: Value)
    requires obj.Object? && obj.members.Valid()
    ensures r.Object? && r.parent == obj.parent && r.members.Valid()
    ensures r.members.Count() == obj.members.Count() + 1
    ensures r.members.entries[..obj.members.Count()] == obj.members.entries
    ensures r.members.entries[obj.members.Count()] == Entry(key, value)
    ensures obj.members.Count() < obj.members.capacity ==> r.members.capacity == obj.members.capacity
    ensures obj.members.Count() == obj.members.capacity ==> r.members.capacity == 2 * obj.members.capacity
  {
    Object(Append(obj.members, Entry(key, value)), obj.parent)
  }

  /**
   * Every reference in `v` is sound in `ts`: a leaf refers to a token of its
   * own kind; an object member's key is a string token immediately followed
   * by a name separator; object storage is valid; and every member names as
   * its parent `self`, the token that opened the object. A member value that
   * is an object was opened two tokens after its key, past the key and `:`.
   */
  ghost predicate Anchored(v: Value, ts: seq<Token>, self: nat)
    decreases v
  {
    match v
    case Scalar(kind, t, _) => t < |ts| && ScalarKindOf(ts[t]) == Some(kind)
    case Object(m, _) =>
      && m.Valid()
      && forall k :: 0 <= k < |m.entries| ==> EntryAnchored(m.entries[k], ts, self)
  }

  ghost predicate EntryAnchored(e: Entry, ts: seq<Token>, self: nat)
    decreases e
  {
    && e.key + 1 < |ts|
    && ts[e.key].String?
    && ts[e.key + 1] == NameSeparator
    && e.value.parent == Some(self)
    && Anchored(e.value, ts, e.key + 2)
  }

  /** Members appear in the order their keys occur in the token sequence. */
  ghost predicate KeysAscending(es: seq<Entry>) {
    forall a, b :: 0 <= a < b < |es| ==> es[a].key < es[b].key
  }
}
