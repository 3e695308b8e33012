/**
 * An index-free view of parsed trees, the token sequence that spells each
 * tree, and the proof that the tree builder recovers a tree from its tokens:
 * members keep their order, duplicate keys are all kept, nesting is preserved.
 */
module Tree {

  import opened Wrappers
  import opened Tokens
  import opened Seqs
  import opened Storage
  import opened Values
  import opened Parser

  /** A JSON value as text denotes it; strings and keys are raw lexemes, quotes included. */
  datatype Json =
    | JObject(members: seq<JMember>)
    | JString(text: seq<char>)
    | JNumber(value: nat)
    | JNull
    | JTrue
    | JFalse

  datatype JMember = JMember(key: seq<char>, value: Json)

  /** The tokens that spell a value. */
  function Emit(json: Json): seq<Token>
    decreases json, 1, 0, 0
  {
    match json
    case JObject(_) => [ObjectStart] + (EmitMembers(json, 0) + [ObjectEnd])
    case JString(text) => [String(text)]
    case JNumber(n) => [Number(n)]
    case JNull => [Null]
    case JTrue => [True]
    case JFalse => [False]
  }

  /**
   * The tokens that spell the members of object `json` from the `k`-th on:
   * key, `:`, value, separated by `,`.
   */
  function EmitMembers(json: Json, k: nat): seq<Token>
    requires json.JObject? && k <= |json.members|
    decreases json, 0, |json.members| - k, 1
  {
    if k == |json.members| then
      []
    else
      var m := json.members[k];
      [String(m.key), NameSeparator] + (Emit(m.value) + MemberTail(json, k))
  }

  /** What follows the value of the `k`-th member: nothing after the last one, else `,` and the next members. */
  function MemberTail(json: Json, k: nat): seq<Token>
    requires json.JObject? && k < |json.members|
    decreases json, 0, |json.members| - k, 0
  {
    if k + 1 == |json.members| then [] else [ValueSeparator] + EmitMembers(json, k + 1)
  }

  /** What a scalar token denotes. */
  function ScalarJson(t: Token): Json {
    match t
    case String(text) => JString(text)
    case Number(n) => JNumber(n)
    case True => JTrue
    case False => JFalse
    case _ => JNull
  }

  /** The key text a member refers to. */
  function KeyText(ts: seq<Token>, key: nat): seq<char> {
    if key < |ts| && ts[key].String? then ts[key].text else []
  }

  /** The value a parsed tree denotes, reading its token references in `ts`. */
  function Abstract(v: Value, ts: seq<Token>): Json
    decreases v, 1, 0
  {
    match v
    case Scalar(_, t, _) => if t < |ts| then ScalarJson(ts[t]) else JNull
    case Object(m, _) => JObject(AbstractFrom(v, 0, ts))
  }

  /** The members of object `obj` from the `k`-th on, as the values they denote. */
  function AbstractFrom(obj: Value, k: nat, ts: seq<Token>): seq<JMember>
    requires obj.Object? && k <= obj.members.Count()
    decreases obj, 0, obj.members.Count() - k
  {
    if k == obj.members.Count() then
      []
    else
      var e := obj.members.entries[k];
      [JMember(KeyText(ts, e.key), Abstract(e.value, ts))] + AbstractFrom(obj, k + 1, ts)
  }

  /** The value production recovers any value from the tokens that spell it, and stops right after them. */
  lemma {:induction false} ParseEmitted(ts: seq<Token>, i: nat, parent: Option<nat>, json: Json)
    requires At(ts, i, Emit(json))
    ensures ParseValue(ts, i, parent).Success?
    ensures ParseValue(ts, i, parent).value.1 == i + |Emit(json)|
    ensures Abstract(ParseValue(ts, i, parent).value.0, ts) == json
    decreases json, 2, 0, 0
  {
    assert ts[i + 0] == Emit(json)[0];
    if json.JObject? {
      ParseEmittedObject(ts, i, parent, json);
    }
  }

  /** The object case of `ParseEmitted`. */
  lemma {:induction false} ParseEmittedObject(ts: seq<Token>, i: nat, parent: Option<nat>, json: Json)
    requires json.JObject? && At(ts, i, Emit(json))
    ensures ParseObject(ts, i, parent).Success?
    ensures ParseObject(ts, i, parent).value.1 == i + |Emit(json)|
    ensures Abstract(ParseObject(ts, i, parent).value.0, ts) == json
    decreases json, 1, 0, 0
  {
    ObjectLayout(ts, i, json);
    FreshSound(ts, i, parent);
    ParseEmittedMembers(ts, i + 1, i, NewObject(parent), json, 0);
    MembersEnd(ts, i + 1, json, 0);
    var r := ParseMembers(ts, i + 1, i, NewObject(parent));
    SoundIsObject(r.value.0, ts, i, r.value.1);
    ObjectRecovered(ts, i, parent, json, r.value.0, r.value.1);
  }

  /** A fresh object satisfies the member loop's invariant right after its opening token. */
  lemma FreshSound(ts: seq<Token>, open: nat, parent: Option<nat>)
    ensures MembersSound(NewObject(parent), ts, open, open + 1)
  {
  }

  /** Members recovered up to a `}` make the object production recover the object. */
  lemma ObjectRecovered(ts: seq<Token>, i: nat, parent: Option<nat>, json: Json, o: Value, end: nat)
    requires json.JObject? && i < |ts|
    requires ParseMembers(ts, i + 1, i, NewObject(parent)).Success?
    requires ParseMembers(ts, i + 1, i, NewObject(parent)).value.0 == o
    requires ParseMembers(ts, i + 1, i, NewObject(parent)).value.1 == end
    requires end < |ts| && ts[end] == ObjectEnd
    requires o.Object? && AbstractFrom(o, NewObject(parent).members.Count(), ts) == json.members[0..]
    ensures ParseObject(ts, i, parent).Success?
    ensures ParseObject(ts, i, parent).value.1 == end + 1
    ensures Abstract(ParseObject(ts, i, parent).value.0, ts) == json
  {
    assert ParseObject(ts, i, parent) == Success((o, end + 1));
    ObjectAbstracted(o, ts, json);
  }

  /** An object whose members denote all the members of `json` denotes `json`. */
  lemma ObjectAbstracted(o: Value, ts: seq<Token>, json: Json)
    requires o.Object? && json.JObject?
    requires AbstractFrom(o, 0, ts) == json.members[0..]
    ensures Abstract(o, ts) == json
  {
    assert json.members[0..] == json.members;
  }

  /** Where the tokens of an object put things: `{`, then its members and `}`. */
  lemma ObjectLayout(ts: seq<Token>, i: nat, json: Json)
    requires json.JObject? && At(ts, i, Emit(json))
    ensures i < |ts| && At(ts, i + 1, EmitMembers(json, 0) + [ObjectEnd])
    ensures |Emit(json)| == |EmitMembers(json, 0)| + 2
  {
    AtSplit(ts, i, [ObjectStart], EmitMembers(json, 0) + [ObjectEnd]);
  }

  /** The members of an object are followed by its `}`. */
  lemma MembersEnd(ts: seq<Token>, i: nat, json: Json, k: nat)
    requires json.JObject? && k <= |json.members|
    requires At(ts, i, EmitMembers(json, k) + [ObjectEnd])
    ensures i + |EmitMembers(json, k)| < |ts| && ts[i + |EmitMembers(json, k)|] == ObjectEnd
  {
    AtSplit(ts, i, EmitMembers(json, k), [ObjectEnd]);
    AtIndex(ts, i + |EmitMembers(json, k)|, [ObjectEnd], 0);
  }

  /**
   * The member loop recovers the members of `json` from the `k`-th on from
   * the tokens that spell them when a `}` follows: the members it appends,
   * after those already present, denote exactly those members in order.
   */
  lemma {:induction false} ParseEmittedMembers(ts: seq<Token>, i: nat, open: nat, obj: Value, json: Json, k: nat)
    requires json.JObject? && k <= |json.members|
    requires open < i <= |ts| && MembersSound(obj, ts, open, i)
    requires At(ts, i, EmitMembers(json, k) + [ObjectEnd])
    ensures ParseMembers(ts, i, open, obj).Success?
    ensures ParseMembers(ts, i, open, obj).value.1 == i + |EmitMembers(json, k)|
    ensures AbstractFrom(ParseMembers(ts, i, open, obj).value.0, obj.members.Count(), ts) == json.members[k..]
    decreases json, 0, |json.members| - k, 1
  {
    if k == |json.members| {
      NoMembers(ts, i, open, obj, json);
    } else {
      var m := json.members[k];
      MemberHead(ts, i, json, k);
      ParseEmitted(ts, i + 2, Some(open), m.value);
      var r := ParseValue(ts, i + 2, Some(open));
      if k + 1 == |json.members| {
        TailLast(ts, i + 2 + |Emit(m.value)|, json, k);
        LastMember(ts, i, open, obj, json, k, r.value.0, r.value.1);
      } else {
        TailMore(ts, i + 2 + |Emit(m.value)|, json, k);
        MemberThenComma(ts, i, open, obj, r.value.0, r.value.1);
        SoundIsObject(obj, ts, open, i);
        MoreMembers(ts, i, open, obj, json, k, r.value.0, r.value.1);
      }
    }
  }

  /** With `}` at the cursor the member loop appends nothing. */
  lemma NoMembers(ts: seq<Token>, i: nat, open: nat, obj: Value, json: Json)
    requires json.JObject?
    requires open < i <= |ts| && MembersSound(obj, ts, open, i)
    requires At(ts, i, EmitMembers(json, |json.members|) + [ObjectEnd])
    ensures ParseMembers(ts, i, open, obj) == Success((obj, i))
    ensures |EmitMembers(json, |json.members|)| == 0
    ensures AbstractFrom(obj, obj.members.Count(), ts) == json.members[|json.members|..]
  {
    MembersEnd(ts, i, json, |json.members|);
  }

  /**
   * Where the tokens of the `k`-th member on, followed by `}`, put things:
   * the key, its `:`, its value's tokens, then what follows the value.
   */
  lemma MemberHead(ts: seq<Token>, i: nat, json: Json, k: nat)
    requires json.JObject? && k < |json.members|
    requires At(ts, i, EmitMembers(json, k) + [ObjectEnd])
    ensures i + 1 < |ts| && ts[i] == String(json.members[k].key) && ts[i + 1] == NameSeparator
    ensures At(ts, i + 2, Emit(json.members[k].value))
    ensures At(ts, i + 2 + |Emit(json.members[k].value)|, MemberTail(json, k) + [ObjectEnd])
    ensures |EmitMembers(json, k)| == 2 + |Emit(json.members[k].value)| + |MemberTail(json, k)|
  {
    var m := json.members[k];
    var value := Emit(m.value);
    var tail := MemberTail(json, k);
    assert EmitMembers(json, k) == [String(m.key), NameSeparator] + (value + tail);
    AtThree(ts, i, i + 2, i + 2 + |value|, EmitMembers(json, k), [String(m.key), NameSeparator], value, tail, [ObjectEnd]);
    AtPair(ts, i, String(m.key), NameSeparator);
  }

  /** After the last member's value comes the `}`. */
  lemma TailLast(ts: seq<Token>, j: nat, json: Json, k: nat)
    requires json.JObject? && k + 1 == |json.members|
    requires At(ts, j, MemberTail(json, k) + [ObjectEnd])
    ensures j < |ts| && ts[j] == ObjectEnd && |MemberTail(json, k)| == 0
  {
    AtSplit(ts, j, MemberTail(json, k), [ObjectEnd]);
    AtIndex(ts, j + |MemberTail(json, k)|, [ObjectEnd], 0);
  }

  /** After any other member's value comes a `,`, then the next members and `}`. */
  lemma TailMore(ts: seq<Token>, j: nat, json: Json, k: nat)
    requires json.JObject? && k + 1 < |json.members|
    requires At(ts, j, MemberTail(json, k) + [ObjectEnd])
    ensures j < |ts| && ts[j] == ValueSeparator
    ensures At(ts, j + 1, EmitMembers(json, k + 1) + [ObjectEnd])
    ensures |MemberTail(json, k)| == 1 + |EmitMembers(json, k + 1)|
  {
    var rest := EmitMembers(json, k + 1);
    assert MemberTail(json, k) == [ValueSeparator] + rest;
    AtHead(ts, j, j + 1, MemberTail(json, k), [ValueSeparator], rest, [ObjectEnd]);
    AtSingle(ts, j, ValueSeparator);
  }

  /** The last member: its value is followed by `}`, and the loop stops there. */
  lemma LastMember(ts: seq<Token>, i: nat, open: nat, obj: Value, json: Json, k: nat, value: Value, j: nat)
    requires json.JObject? && k + 1 == |json.members|
    requires open < i && i + 1 < |ts| && MembersSound(obj, ts, open, i)
    requires ts[i] == String(json.members[k].key) && ts[i + 1] == NameSeparator
    requires ParseValue(ts, i + 2, Some(open)).Success?
    requires ParseValue(ts, i + 2, Some(open)).value.0 == value && ParseValue(ts, i + 2, Some(open)).value.1 == j
    requires Abstract(value, ts) == json.members[k].value
    requires j < |ts| && ts[j] == ObjectEnd
    requires |EmitMembers(json, k)| == j - i
    ensures ParseMembers(ts, i, open, obj).Success?
    ensures ParseMembers(ts, i, open, obj).value.1 == i + |EmitMembers(json, k)|
    ensures AbstractFrom(ParseMembers(ts, i, open, obj).value.0, obj.members.Count(), ts) == json.members[k..]
  {
    var obj' := AddEntry(obj, i, value);
    MembersSoundAppend(obj, ts, open, i, value, j);
    assert ParseMembers(ts, i, open, obj) == Success((obj', j));
    assert AbstractFrom(obj', obj.members.Count(), ts) == [json.members[k]];
    assert json.members[k..] == [json.members[k]];
  }

  /** A member followed by `,`: once it is appended, the rest of the loop recovers it and every later member. */
  lemma {:induction false} MoreMembers(ts: seq<Token>, i: nat, open: nat, obj: Value, json: Json, k: nat, value: Value, j: nat)
    requires json.JObject? && k + 1 < |json.members|
    requires i < |ts| && obj.Object? && obj.members.Valid()
    requires ts[i] == String(json.members[k].key) && Abstract(value, ts) == json.members[k].value
    requires open < j + 1 <= |ts| && MembersSound(AddEntry(obj, i, value), ts, open, j + 1)
    requires At(ts, j + 1, EmitMembers(json, k + 1) + [ObjectEnd])
    requires |EmitMembers(json, k)| == j + 1 + |EmitMembers(json, k + 1)| - i
    ensures ParseMembers(ts, j + 1, open, AddEntry(obj, i, value)).Success?
    ensures ParseMembers(ts, j + 1, open, AddEntry(obj, i, value)).value.1 == i + |EmitMembers(json, k)|
    ensures AbstractFrom(ParseMembers(ts, j + 1, open, AddEntry(obj, i, value)).value.0, obj.members.Count(), ts)
            == json.members[k..]
    decreases json, 0, |json.members| - k, 0
  {
    ParseEmittedMembers(ts, j + 1, open, AddEntry(obj, i, value), json, k + 1);
    var r := ParseMembers(ts, j + 1, open, AddEntry(obj, i, value));
    SoundIsObject(r.value.0, ts, open, r.value.1);
    MembersJoined(ts, i, obj, json, k, value, r.value.0);
  }

  /** The first pass of the loop over a member followed by `,`: the member is appended and the loop resumes after the `,`. */
  lemma MemberThenComma(ts: seq<Token>, i: nat, open: nat, obj: Value, value: Value, j: nat)
    requires open < i && i + 1 < |ts| && MembersSound(obj, ts, open, i)
    requires ts[i].String? && ts[i + 1] == NameSeparator
    requires ParseValue(ts, i + 2, Some(open)).Success?
    requires ParseValue(ts, i + 2, Some(open)).value.0 == value && ParseValue(ts, i + 2, Some(open)).value.1 == j
    requires j < |ts| && ts[j] == ValueSeparator
    ensures open < j + 1 <= |ts| && MembersSound(AddEntry(obj, i, value), ts, open, j + 1)
    ensures ParseMembers(ts, i, open, obj) == ParseMembers(ts, j + 1, open, AddEntry(obj, i, value))
  {
    MembersSoundAppend(obj, ts, open, i, value, j);
  }

  /** What the member loop keeps is an object with valid storage. */
  lemma SoundIsObject(obj: Value, ts: seq<Token>, open: nat, bound: nat)
    requires MembersSound(obj, ts, open, bound)
    ensures obj.Object? && obj.members.Valid()
  {
  }

  /** The member the first pass appended heads the members the rest of the loop recovers. */
  lemma MembersJoined(ts: seq<Token>, i: nat, obj: Value, json: Json, k: nat, value: Value, o: Value)
    requires json.JObject? && k < |json.members|
    requires obj.Object? && obj.members.Valid()
    requires i < |ts| && ts[i] == String(json.members[k].key) && Abstract(value, ts) == json.members[k].value
    requires o.Object? && AddEntry(obj, i, value).members.Count() <= o.members.Count()
    requires o.members.entries[..AddEntry(obj, i, value).members.Count()] == AddEntry(obj, i, value).members.entries
    requires AbstractFrom(o, AddEntry(obj, i, value).members.Count(), ts) == json.members[k + 1..]
    ensures AbstractFrom(o, obj.members.Count(), ts) == json.members[k..]
  {
    AppendedMemberKept(ts, AddEntry(obj, i, value), obj.members.Count(), json.members[k], o, json.members[k + 1..]);
    SuffixCons(json.members, k);
  }

  /**
   * A member appended before the rest of the loop runs is still in place at
   * its position in the loop's result `o`, ahead of the members the rest appends.
   */
  lemma AppendedMemberKept(ts: seq<Token>, obj': Value, n: nat, member: JMember, o: Value, tail: seq<JMember>)
    requires obj'.Object? && obj'.members.Count() == n + 1
    requires KeyText(ts, obj'.members.entries[n].key) == member.key
    requires Abstract(obj'.members.entries[n].value, ts) == member.value
    requires o.Object? && obj'.members.Count() <= o.members.Count()
    requires o.members.entries[..obj'.members.Count()] == obj'.members.entries
    requires AbstractFrom(o, n + 1, ts) == tail
    ensures AbstractFrom(o, n, ts) == [member] + tail
  {
    assert o.members.entries[n] == o.members.entries[..n + 1][n];
  }
}
