# A verified model of a small JSON front end

The modelled program reads JSON text in two stages.

- **Tokenizer.** It scans a character buffer left to right and stops at the first NUL terminator or at the end of the buffer. It emits:
  - the six structural tokens `{ } [ ] : ,`;
  - quoted strings, kept as raw lexemes with no escape decoding;
  - runs of decimal digits, as numbers;
  - the literal words `null`, `true` and `false`.

  Whitespace is skipped. Any other character stops the scan with an error.
- **Tree builder.** A recursive-descent builder dispatches on the first token and runs the object production `parse_obj`. The object production appends (key, value) members to growable storage with `add_obj_entry`, and creates nodes with `new_json_value`.

The model is pure Dafny over sequences.

| module | file | contents |
|---|---|---|
| `Tokens` | tokens.dfy | the token datatype |
| `Lexer` | lexer.dfy | the scanning loop as `Step` and `Scan`, and the loop as written |
| `Storage` | storage.dfy | count/capacity storage that starts at 8 and doubles when full |
| `Values` | values.dfy | value nodes and the constructors |
| `Parser` | parser.dfy | the top-level dispatch, the value, object and member productions, and the member loop as written |
| `Render` | render.dfy | printing tokens back as compact text, with the proof that the tokenizer inverts it |
| `Tree` | tree.dfy | an index-free view of parsed trees, the tokens that spell a tree, and the proof that the builder recovers a tree from its tokens |
| `Pipeline` | pipeline.dfy | the two stages composed: text that spells a value parses back to that value |
| `Wrappers` | wrappers.dfy | `Option` and `Result` |
| `Seqs` | seqs.dfy | facts about where a sequence occurs inside another |

How the source's machinery is represented:

- **References.** Tokens are referred to by their index in the token sequence. A node's parent is the index of the token that opened the enclosing object.
- **Errors.** The source's `printf` plus `exit(1)` becomes a `Failure` result.
- **Number payload.** The `long double` payload becomes the natural number that the digit run denotes.

Where the program's behaviour and the JSON grammar of RFC 8259 disagree, the model follows the code:

- **Trailing comma.** A trailing comma inside an object (`{"a":1,}`) is accepted, because after the `,` the loop condition fails and the `}` closes the object.
- **Tokens after the root.** Tokens after the root value are never examined.
- **Literal boundaries.** Literal words are matched without a check of what follows, so `nullx` lexes as `null` and then fails on `x`.
- **Unterminated strings.** An unterminated string becomes a string token that runs to the terminator or the end of the buffer.
- **Arrays.** `[` in value position is handed to the object production, and the node it yields is an object.

Four places where the code is evidently wrong are corrected in the model, and each is listed under Findings below:

- the skipped character after a number;
- the scan resuming past the terminator after an unterminated string;
- the closing check after the last member;
- `new_json_value` ignoring its arguments.

Two further points:

- **Missing default case.** The member-value `switch` has no default case, so a structural token in value position leaves the value uninitialised. The model reports it as the error `UnexpectedMemberValue`.
- **Root object.** The root object that `parse_obj` builds is discarded by `main`. The model returns it as the document root.

## Model

| member | source | states |
|---|---|---|
| Lexer.Step | json-parser/src/main.c:95-147 | one pass of the loop body succeeds exactly when some production accepts the character, always advances, and otherwise fails with that character and its offset |
| Lexer.DigitRunEnd | json-parser/src/main.c:126-128 | the number branch stops at the first non-digit: every character before it is a digit |
| Lexer.StringRunEnd | json-parser/src/main.c:114-116 | the string branch stops at the first quote or terminator, and no character before it is either |
| Lexer.StepStructural | json-parser/src/main.c:97-108 | each of `{ } [ ] : ,` yields exactly its own token and advances by one character |
| Lexer.StepWhitespace | json-parser/src/main.c:143-147 | space, tab, LF and CR yield no token and advance by one character |
| Lexer.StepString | json-parser/src/main.c:109-120 | a quote yields a string token: the raw text up to and including the next quote, or up to the terminator or end when none follows, and the scan resumes on that terminator |
| Lexer.StepNumber | json-parser/src/main.c:121-131 | a digit yields one number token for the maximal digit run, read in base 10, and the scan resumes at the first non-digit |
| Lexer.StepLiteral | json-parser/src/main.c:134-142 | `null` and `true` consume 4 characters and `false` 5, each yielding its literal token, whatever follows |
| Lexer.Scan | json-parser/src/main.c:95-148 | the scanning loop either yields tokens or fails at an offset whose character no production accepts |
| Lexer.Tokenize | json-parser/src/main.c:92-148 | the tokenizer fails only at a character no production accepts, and reports that character; an empty text has no tokens |
| Lexer.ScanStopsAtTerminator | json-parser/src/main.c:95-148 | the scan stops at the first terminator: whatever follows it does not change the result |
| Lexer.ScanSkipsWhitespace | json-parser/src/main.c:143-147 | whitespace contributes no token: the scan from it equals the scan from the next character |
| Lexer.ScanStructural | json-parser/src/main.c:97-108 | a structural character contributes exactly its token before the rest of the scan |
| Lexer.ScanRejects | json-parser/src/main.c:143-146 | a character that starts no token aborts the whole scan with an error at its offset |
| Lexer.ScanStep | json-parser/src/main.c:95-148 | every production contributes its token before the rest of the scan: the scan succeeds exactly when the rest does, and an error anywhere further on is the error of the whole scan |
| Lexer.TokenizeRejectsAfterNumber | json-parser/src/main.c:121-146 | `1x` is rejected at the `x`: a bad character after a number aborts the tokenizer |
| Lexer.StepAsWritten | json-parser/src/main.c:109-147 | the loop as written emits the same token as the corrected step; after a digit run the shared increment also steps over the first non-digit, and after a string stopped by the terminator over that terminator; a closed string resumes where the corrected step does |
| Lexer.ScanAsWritten | json-parser/src/main.c:95-148 | the scanning loop as written stops at the terminator under its cursor and fails only at a character no production accepts |
| Lexer.TokenizeAsWritten | json-parser/src/main.c:92-148 | the tokenizer as written fails only at a character no production accepts; an empty text has no tokens |
| Lexer.AsWrittenSkipsFollower | json-parser/src/main.c:126-147 | as written, a structural character right after a digit run is never examined; the corrected step resumes on it |
| Lexer.AsWrittenLosesClosingBracket | json-parser/src/main.c:95-148 | `[1]` tokenizes to `[ 1` as written and to `[ 1 ]` corrected |
| Lexer.AsWrittenReadsPastTerminator | json-parser/src/main.c:109-148 | as written, the buffer `"a`, NUL, `{` tokenizes to a string and `{`: the scan resumes past the terminator; the corrected scan yields only the string |
| Lexer.AsWrittenStopsAfterClosedString | json-parser/src/main.c:95-147 | the buffer `"a"`, NUL, `{` yields only the string both as written and corrected: the increment after a closing quote lands on the terminator, which ends the loop |
| Render.DigitsRoundTrip | json-parser/src/main.c:124-131 | reading the decimal numeral of `n` gives `n` back, so a number token's value is what its digits denote |
| Render.TokenizeRender | json-parser/src/main.c:95-148 | any renderable tokens, printed compactly, are tokenized back into exactly those tokens |
| Render.ScanRendered | json-parser/src/main.c:95-148 | whatever text precedes them, the scan from the start of compactly printed tokens yields exactly those tokens |
| Render.RenderIsCompact | json-parser/src/main.c:95-148 | the printer puts lexemes back to back, as in `{"a":1}`, and separates only two adjacent numbers by a blank |
| Render.AsWrittenMisreadsRendering | json-parser/src/main.c:121-147 | the compact text `[1]` is read back by the corrected tokenizer but not by the loop as written |
| Storage.Empty | json-parser/src/main.c:357-359 | new storage holds no entries and has capacity 8 |
| Storage.Append | json-parser/src/main.c:335-348 | an append adds exactly one entry at the end and keeps the earlier ones; it doubles the capacity exactly when the storage was full; count never exceeds capacity |
| Storage.CapacityDeterminedByCount | json-parser/src/main.c:336-338 | two valid storages with equal counts have equal capacities |
| Storage.GrowthTransparent | json-parser/src/main.c:335-348 | storage produced by appends equals fresh storage built from its entries: growth is not observable |
| Values.NewObject | json-parser/src/main.c:350-362 | a new object node has no members, capacity 8 and the parent the caller names |
| Values.NewScalar | json-parser/src/main.c:293-312 | a new leaf has the kind, token and parent the caller names |
| Values.ScalarKindOf | json-parser/src/main.c:293-312 | exactly the five scalar tokens have a leaf kind |
| Values.AddEntry | json-parser/src/main.c:335-348 | one more member, earlier members unchanged, the new member last, capacity doubled only when it was full |
| Values.NewValueAsWritten | json-parser/src/main.c:350-362 | the constructor as written returns a parentless empty object whatever kind and parent it is asked for |
| Values.AsWrittenForgetsKindAndParent | json-parser/src/main.c:354-356 | a requested string leaf with a parent comes out as written as a parentless object; the corrected constructors keep kind and parent |
| Parser.AfterMember | json-parser/src/main.c:317-322 | after a member, a `,` is consumed and the loop continues; otherwise the loop stops and `}` must be at that same index |
| Parser.AfterMemberAsWritten | json-parser/src/main.c:319-321 | as written, the token after a member is consumed whether or not it is `,`, so the closing check looks one token further |
| Parser.ParseValue | json-parser/src/main.c:279-314 | scalar tokens become leaves of the matching kind referring to that token; `{` and `[` run the object production; a structural token or the end of input is an error; on success the node is anchored in the tokens, keeps the parent the caller names, and the cursor advances past it |
| Parser.ParseObject | json-parser/src/main.c:266-333 | on success the object ends at a `}`, the cursor is one past it, the members' keys are string tokens followed by `:` in ascending order, and every member value names the object's `{` as its parent |
| Parser.ParseMembers | json-parser/src/main.c:270-322 | the member loop keeps existing members as a prefix and appends new ones in encounter order; a key not followed by `:` is an error; a non-string token ends the loop; a failing member value fails the loop with its error; a member value followed by anything but `,` stops the loop right there with that member appended; every member value names the object's `{` as its parent |
| Parser.MembersSoundAppend | json-parser/src/main.c:317 | appending a member at a later key position keeps the keys anchored and ascending |
| Parser.EmptyObject | json-parser/src/main.c:324-332 | `{}` yields an object with zero members, and the cursor is one past the `}` |
| Parser.UnclosedObjectRejected | json-parser/src/main.c:324-330 | a member list that stops anywhere but at `}` is an error at that index |
| Parser.MissingSeparatorRejected | json-parser/src/main.c:270-330 | for any member the object's loop reaches, after the `,`s before it, a value followed by neither `,` nor `}`, or by the end of the tokens, makes the object an error at that index |
| Parser.FirstMemberRejected | json-parser/src/main.c:270-330 | the same for the first member of an object |
| Parser.MemberValueErrorRejected | json-parser/src/main.c:279-314 | an error in the first member's value is the object's error |
| Parser.ValueRunsObject | json-parser/src/main.c:280-288 | `{` and `[` in value position both run the object production, with its result or its error |
| Parser.ObjectPropagatesMemberError | json-parser/src/main.c:266-333 | an error inside the member loop is the object's error |
| Parser.NestedErrorRejected | json-parser/src/main.c:154-219 | an error inside an object nested as the first member's value, as in `{"x":{"a":1 "b":2}}`, is the document's error |
| Parser.MissingNameSeparatorRejected | json-parser/src/main.c:272-275 | `{"a" 1}` is not a document: the error is where the `:` belongs |
| Parser.UnseparatedMembersRejected | json-parser/src/main.c:154-219 | `{"a":1 "b":2}` is not a document: the error is at the second key |
| Parser.UnclosedDocumentRejected | json-parser/src/main.c:154-219 | the unclosed `{"a":1` is not a document: the error is where the `}` belongs |
| Parser.TrailingCommaAccepted | json-parser/src/main.c:317-324 | a member followed by `,` and `}` is appended, and the loop stops at the `}` |
| Parser.Parse | json-parser/src/main.c:154-219 | an empty stream is an error; an object root is parsed by the object production and the document fails exactly when, and with the error with which, that production fails; the root has no parent; a scalar first token alone is the document; `[` and the other structural tokens at the root are errors |
| Parser.ParseValueAsWritten | json-parser/src/main.c:279-314 | the value production of the as-written builder advances the cursor past the value |
| Parser.ParseObjectAsWritten | json-parser/src/main.c:266-333 | the object production as written succeeds only with a `}` at the index the as-written loop reports |
| Parser.ParseMembersAsWritten | json-parser/src/main.c:270-322 | the member loop as written keeps valid storage and may report an index one past the last token |
| Parser.AsWrittenLooksPastClose | json-parser/src/main.c:317-324 | after a scalar member directly followed by `}`, the corrected loop stops at the `}` and the loop as written stops one past it |
| Parser.AsWrittenRejectsOneMember | json-parser/src/main.c:266-333 | `{"a":1}` is accepted by the corrected production and rejected as written, with the closing check at index 5, past the last token |
| Tree.ParseEmitted | json-parser/src/main.c:279-314 | the value production recovers any value from the tokens that spell it and stops right after them |
| Tree.ParseEmittedObject | json-parser/src/main.c:266-333 | the object production recovers any object from its tokens: same members, same order, duplicate keys kept, nesting preserved |
| Tree.ParseEmittedMembers | json-parser/src/main.c:270-322 | the member loop appends exactly the members the tokens spell, in order, after those already present |
| Tree.MemberThenComma | json-parser/src/main.c:270-322 | after a member and its `,`, the loop resumes at the next key with that member appended, keeping the loop invariant |
| Pipeline.TokenizeEmitted | json-parser/src/main.c:95-148 | printing the tokens of a well-formed value compactly, as in `{"a":1}`, and tokenizing the text gives those tokens back |
| Pipeline.ParseRecoversRoot | json-parser/src/main.c:154-219 | the tokens of any value, followed by any tokens, parse into a document whose root denotes that value |
| Pipeline.TextRoundTrip | json-parser/src/main.c:92-219 | the compact text spelling a well-formed value, with no whitespace except between adjacent numbers, is tokenized and parsed back into that value |
| Pipeline.DuplicateKeysKept | json-parser/src/main.c:335-348 | an object with two members under the same key parses into both members, in order |

## Left out

- Command-line handling and reading the file into the buffer (json-parser/src/main.c:63-90). This is I/O; the model takes the buffer as a character sequence.
- The `BUF_SIZE` bound on the scan (json-parser/src/main.c:95). The buffer is unbounded in the model.
- The fixed token array `ts[BUF_SIZE/2]` (json-parser/src/main.c:93), and reads past the last token when the member loop runs off the end. Tokens are an unbounded sequence, and an index at or past the end is reported as an error.
- The unchecked 256-byte string buffers (json-parser/src/main.c:112, 124). Strings of any length are modelled.
- `malloc`, `realloc` and `free`, including the `realloc` size given in bytes rather than entries (json-parser/src/main.c:339-340). Storage is a sequence with an explicit capacity, and allocation cannot fail.
- `print_tokens` and every `printf` (json-parser/src/main.c:149, 152, 222-261). These only produce output.
- `atof` and the `long double` payload (json-parser/src/main.c:131). The model uses the exact natural number the digits denote, not a floating-point rounding of it.
- The `is_valid` field and the unused `array` composite of a value. The code never sets either.
- Address identity: `&first_token` points at a stack copy of the first token (json-parser/src/main.c:187). The model refers to tokens by index.
- Escapes, signs, fractions, exponents, literal boundary checks and a separate array production. The code has none of them.
- Parser.Parse: diverges from the code at the root for `[`, `}`, `]`, `:` and `,` (json-parser/src/main.c:167-183). The code only prints a message there and keeps the empty object created at json-parser/src/main.c:155 as the root; the model reports `ArrayRootUnsupported` or `UnexpectedAtRoot` instead, because that empty object is an uninitialised placeholder, not a parse of the input.
- Parser.ParseValueAsWritten: states only cursor progress and leaf placement. The as-written builder is kept only to exhibit the closing-check defect.

## Findings

| source | as written | input that shows it | evidently intended | confidence | as-written member | corrected member |
|---|---|---|---|---|---|---|
| json-parser/src/main.c:126-147 | the number branch leaves the cursor on the first non-digit, and the shared `c++` at the bottom of the loop steps over it | `[1]` tokenizes to `[` `1`; the `]` is lost | resume scanning at the first non-digit | not executed | Lexer.AsWrittenLosesClosingBracket | Lexer.Step |
| json-parser/src/main.c:114-147 | an unterminated string leaves the cursor on the NUL, and the shared `c++` steps over it, so the loop reads past the terminator | the buffer `"a`, NUL, `{` tokenizes to a string and `{` | stop the scan at the terminator | not executed | Lexer.AsWrittenReadsPastTerminator | Lexer.ScanStopsAtTerminator |
| json-parser/src/main.c:319-324 | `ts[i++]` consumes the token after a member even when it is not `,`, so the closing check inspects the token after the `}` | `{"a":1}` fails, with the check at index 5, past the last token | consume `,` only when present, then require `}` at that index | not executed | Parser.AsWrittenRejectsOneMember | Parser.AfterMember |
| json-parser/src/main.c:350-362 | `new_json_value` sets the type to object and the parent to NULL whatever the caller passes | a string member value gets type object and no parent | the node has the requested kind and parent | not executed | Values.AsWrittenForgetsKindAndParent | Values.NewScalar |
