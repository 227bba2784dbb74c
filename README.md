# A verified model of the glow CSS grammar engine

`build/glow.js` bundles a small CSS engine. This project models its core in
Dafny and proves properties of the model. The core has five parts.

- **The lexer** (`Lexer`, `whind`). It is a character-class tokenizer driven
  by two 128-entry tables. A token is an offset, a length, a type, a line
  and a column over an immutable string, read up to a bound `sl`. The type,
  the length and three flags are packed into one 32-bit word.
  - `LexSpec.Next` is the pure specification of `next`.
  - `LexerObject.Lexer` is a class with the same fields as the source. Its
    methods `next`, `copy`, `sync`, `fence`, `peek`, `assert`, `addSymbol`
    and `comment` update them in place and are proved equal to the
    specification.
  - `LexerValue` is the value view of a lexer (a cursor plus the state of
    its peek lexer). The parsers read this view.
  - `Packing` proves the bit layout of the packed word.
- **The notation compiler** (`d$1`, `checkExtensions`,
  `foldIntoProduction`, `getPropertyParser`, `CreatePropertyParser`). It
  compiles value-definition syntax into a term graph. The graph is a store
  of nodes with ids, so that a compiled definition shared by several
  grammars is one node, as in the source.
  - The definition tables are part of the compiler's state. They show that
    a notation is replaced by its term on first use.
  - A `Build` flag selects the code as written or as corrected where the
    source has a bug (see "## Findings").
  - `CompileNotation`, `CompileChildren` and `ReadExtensions` are the
    source's loops. Each is proved equal to the function that specifies it.
- **The combinator evaluator** (`checkDefaults`, `innerParser` of JUX, AND,
  OR and ONE_OF, ValueTerm, LiteralTerm, SymbolTerm). `Evaluator.Parse` is
  the specification. Each cycle runs on a copy of the lexer and is synced
  only when it commits.
  - The AND/OR cycles keep their `HIT` marks in an `array` that the methods
    update in place.
  - The OR's swapped arguments `(copy, temp_r, r)` are kept as written.
  - The OR's `NO_HIT` flag is never reset, as written.
- **The leaf parsers**: colour (`#` hex forms, `rgb()`/`rgba()` and names),
  length, percentage, number, id, string and URL.
- **The stylesheet parser**:
  - `parseSelector` stores compounds innermost-first with combinator tags;
  - `parseProperty` and `_applyProperties_`;
  - the synchronous loop of `CSSRuleBody.parse`, with selectors made once
    per selector list and rules merged into the rule a selector already has;
  - `CSSRule` (`merge`, `toString`, reference counts) and `CSSSelector`
    (`addRule`, `removeRule`) as classes.

Two small extras are also modelled: `CSS_Path.ToString` and
`URL.resolveRelative` / `URL.toString`.

Several facts are modelled as written and stated as lemmas:
- every tab token is one character long (`LexSpec.TabTokenIsOneCharacter`);
- a group's lower repetition bound is never read
  (`Evaluator.LowerBoundIgnored`);
- an OR group that has matched once commits every later cycle
  (`Evaluator.OrCommitsOnceHit`, `Evaluator.OrRunsToEnd`).

Where the code departs from what it evidently means, both versions are
modelled, and the corrected one is what the rest of the model uses.

The model follows the branches, error cases and constants of
`build/glow.js`. It departs from the code only where "## Findings" records
a bug or "## Left out" names the difference. Where a bug is recorded, the
rest of the model uses the corrected version.
Where the documentation of the original and its code disagree, the code is
followed:
- The documentation says that `#` requires commas between repetitions.
  The code as written appends a `","` SymbolTerm to the group, and
  `Compiler.Hash` models that under `AsWritten`. The property path uses
  the `Corrected` build, which only sets the comma flag (Findings row 5).
- The documentation says that a `{m,n}` lower bound is honoured. The code
  never reads it, and the evaluator does the same
  (`Evaluator.LowerBoundIgnored`).

## Model

| member | source | states |
|---|---|---|
| `LexTables.TypeValue` | build/glow.js:782-791 | each token type has a positive numeric id |
| `LexTables.TypeIndex` | build/glow.js:1447-1453 | the index of a type's bit, the value packed into the low four bits, is below 16 |
| `LexTables.JumpClass` | build/glow.js:512-641 | the jump table gives one of 12 classes; class 0 holds exactly the digits and class 1 exactly the ASCII letters |
| `LexTables.NumIdBits` | build/glow.js:651-780 | each entry of the number/identifier table is 0, 2, 4 or 8 |
| `LexTables.NumberSetCharacters` | build/glow.js:651-780 | every number-set character is a digit, a letter, `$` or `.`, and never blank or `-` |
| `LexTables.NumberSetExponentLetters` | build/glow.js:651-780 | `E` is in the number set and `e` is not; `-` is in the identifier set only |
| `DeBruijn.DeBruijnOnTypeWords` | build/glow.js:829-836 | the De Bruijn lookup returns the exponent of every power of two used as a type id |
| `Packing.TypeRoundTrip` | build/glow.js:1447-1454 | storing a type and reading it back gives that type, and only the four type bits change |
| `Packing.LengthField` | build/glow.js:1468-1470 | the length setter writes `value << 7` into the length field and keeps the low seven bits |
| `Packing.ShiftBack` | build/glow.js:1464-1466 | shifting a stored length back gives the value exactly when it fits the field |
| `Packing.TokenLengthRoundTrip` | build/glow.js:1464-1470 | a token length reads back as written if and only if it fits in 25 signed bits; the flag and type bits are untouched |
| `Packing.LengthWrapsAt2To24` | build/glow.js:1464-1470 | a length of 2^24 reads back with the sign bits set |
| `Packing.FlagRoundTrip` | build/glow.js:1480-1502 | each of the three flags reads back as written and leaves every other bit alone |
| `LexSpec.RunEnd` | build/glow.js:1089-1129 | a run stops at the first character that does not continue it, or at the bound, and every character before that continues it |
| `LexSpec.Next` | build/glow.js:1013-1183 | `next`: a bound below 1 resets the token to the empty one at 0; a token ending at or past the bound gives the empty token on the bound; otherwise the next token is read inside the bound |
| `LexSpec.NextInBound` | build/glow.js:1048-1080 | with custom symbols, spaces are skipped when white space is ignored and the longest trie match is a symbol token when it is a complete symbol; otherwise the scanning loop reads the token |
| `LexSpec.Scan` | build/glow.js:1075-1172 | the scanning loop sends a blank to the blank case and any other character to the token case |
| `LexSpec.TokenAt` | build/glow.js:1084-1156 | the jump-table dispatch: a digit starts a number, a letter an identifier run, a quote a string up to the same quote (one symbol when strings are not parsed), classes 7 to 11 a one-character token (four for the data-link escape), and a character past 127 a symbol |
| `LexSpec.SkipSpaces` | build/glow.js:1058-1059 | the skip before a custom-symbol match passes only spaces and stops on a character that is not one |
| `LexSpec.TrieWalk` | build/glow.js:1061-1065 | the walk down the symbol trie never moves backwards |
| `LexSpec.NumberAt` | build/glow.js:1089-1105 | a token read at a digit is a number starting at that offset |
| `LexSpec.JsSlice` | build/glow.js:1275-1280 | `slice` never gives more characters than the string has |
| `LexSpec.NonBlankStart` | build/glow.js:1075-1172 | started on a character that is not blank, `next` reports a token of at least one character right there and keeps the bound |
| `LexSpec.TokenNonBlank` | build/glow.js:1084-1156 | a token read inside the bound starts at the scan offset and is at least one character long |
| `LexSpec.TokenAtShape` | build/glow.js:1084-1156 | a token read at a character that is not blank is a maximal run of its class, never white space or a line break |
| `LexSpec.NumberShape` | build/glow.js:1089-1105 | a number token is the maximal number-set run, with an exponent part glued on |
| `LexSpec.ScanToken` | build/glow.js:1078-1173 | the scanning loop reports a well-formed token, or an empty one at the bound trimmed of trailing blanks |
| `LexSpec.BlankToken` | build/glow.js:1120-1170 | a blank is reported as a token when white space is kept, and is skipped otherwise |
| `LexSpec.NextTokenShape` | build/glow.js:1075-1183 | with no custom symbols, a token `next` reports inside the bound is the maximal run its first character starts; a quoted string includes both quotes; with white space ignored it is never white space or a line break |
| `LexSpec.EndOfInput` | build/glow.js:1036-1046 | at the end of the input the token is empty and sits exactly on the bound, whether the bound was reached directly or after trailing blanks were trimmed |
| `LexSpec.IgnoredBlanksAreEmpty` | build/glow.js:1158-1172 | with white space ignored, even with custom symbols, the only white-space or line-break token is the empty one at a trimmed bound |
| `LexSpec.ScanBlanksTrimmed` | build/glow.js:1158-1170 | the scanning loop with white space ignored reports a blank type only for the empty token at a bound lowered by the trailing blanks |
| `LexSpec.TabTokenIsOneCharacter` | build/glow.js:1125-1129 | a tab is a white-space token of exactly one character, whatever follows it |
| `LexSpec.NextAdvances` | build/glow.js:1013-1183 | `next` keeps the flags, leaves a non-negative length, and moves strictly forward until the end |
| `LexSpec.NextWithinBound` | build/glow.js:1013-1183 | `next` never raises the bound it was given and starts its token no later than that bound; a token that starts before the bound starts after the previous one |
| `LexerObject.Lexer.constructor` | build/glow.js:840-894 | a new lexer is at the start of its string with the white-space flag as asked, advanced once unless it is a peek lexer |
| `LexerObject.Lexer.NextOn` | build/glow.js:1013-1183 | `next(marker)` moves the marker to the token the specification gives and keeps its symbols, peek lexer and flags |
| `LexerObject.Lexer.Store` | build/glow.js:1176-1182 | the closing stores set exactly the type, offset, length, column and line |
| `LexerObject.Lexer.Fence` | build/glow.js:900-905 | `fence` does nothing on a lexer over another string, and otherwise sets the bound to the other lexer's offset |
| `LexerObject.Lexer.Copy` | build/glow.js:911-918 | `copy` is a fresh lexer in the same token state, with no peek lexer and no custom symbols |
| `LexerObject.Lexer.Sync` | build/glow.js:926-937 | `sync` fails on a lexer over another string, does nothing with no lexer, and otherwise takes over position, token and flags while keeping its own bound |
| `LexerObject.Lexer.Peek` | build/glow.js:1243-1260 | `peek` leaves the caller's state alone, reuses the peek lexer once it exists, and advances it one token from the caller's token |
| `LexerObject.Lexer.Assert` | build/glow.js:1200-1210 | `assert(text)` advances exactly when the token's text is `text`, and fails otherwise with the state unchanged |
| `LexerObject.Lexer.AddSymbol` | build/glow.js:1349-1365 | after `addSymbol` every prefix of the symbol is a trie node and the symbol is marked |
| `LexerObject.Lexer.Comment` | build/glow.js:1287-1306 | `comment` leaves the state and outcome its specification gives: past a block comment, past a line comment, or failing on a missing start when asked |
| `LexerObject.Lexer.SkipBlock` | build/glow.js:1292-1295 | the block-comment branch ends after the closing `*/`, or fails where the `/` is missing |
| `LexerObject.Lexer.BlockLoop` | build/glow.js:1294 | the block-comment loop ends where the specification's scan ends |
| `LexerObject.Lexer.SkipLine` | build/glow.js:1296-1300 | the line-comment branch ends as the corrected line skip does |
| `LexerObject.Initial` | build/glow.js:857-891 | a new lexer starts at offset 0 with an empty token, its bound at the string's length, and ignores white space unless told otherwise |
| `LexerObject.SyncState` | build/glow.js:930-933 | after `sync` the state is the other lexer's, except for the own bound |
| `LexerObject.PeekStart` | build/glow.js:1252-1257 | the peek lexer is given the caller's token with its own bound |
| `LexerObject.WithSymbol` | build/glow.js:1349-1365 | the symbol and every prefix of it are in the trie |
| `LexerObject.MatchSymbol` | build/glow.js:1051-1073 | the custom-symbol lookup skips spaces when they are ignored, walks the trie, and matches exactly when a marked symbol ends there |
| `LexerObject.SkipSpaceRun` | build/glow.js:1058-1059 | the space loop ends where SkipSpaces says |
| `LexerObject.WalkTrie` | build/glow.js:1061-1065 | the trie loop ends where TrieWalk says |
| `LexerObject.ScanRun` | build/glow.js:1089-1129 | each run loop ends where RunEnd says |
| `LexerObject.ScanLoop` | build/glow.js:1078-1173 | the `for (;;)` loop of `next` gives the specification's scan and keeps the flags |
| `LexerObject.ReadToken` | build/glow.js:1084-1156 | one non-blank token of the loop is the specification's token |
| `LexerObject.ReadNumber` | build/glow.js:1089-1105 | a number token, with its exponent re-entry into `next`, is the specification's |
| `LexerObject.NextInBoundOn` | build/glow.js:1048-1183 | the part of `next` after the early returns gives the specification's state |
| `LexerObject.ScanOn` | build/glow.js:1075-1182 | the scanning loop and the closing stores give the specification's state |
| `LexerObject.BlockSkip` | build/glow.js:1294 | the block-comment scan keeps the flags of the lexer it runs on |
| `LexerObject.LineSkip` | build/glow.js:1298 | the line-comment scan keeps the flags of the lexer it runs on |
| `LexerObject.LineCommentAsWritten` | build/glow.js:1296-1300 | as written, the `//` loop runs `next` with the lexer's own white-space flag, restores that flag, and advances once more |
| `LexerObject.LineCommentIntended` | build/glow.js:1296-1300 | corrected, the line is skipped with white space kept, so the line break is seen; then the flag is restored and the lexer advances once more |
| `LexerObject.CommentSpec` | build/glow.js:1287-1306 | `comment`: nothing happens unless the character is `/`; `/*` skips to after `*/`, `//` skips the line in the corrected form, and anything else fails only when asked to assert |
| `LexerObject.LineCommentRunsToEnd` | build/glow.js:1296-1300 | as written, with white space ignored, a `//` comment runs to the end of the input |
| `LexerObject.LineCommentStopsAtBreak` | build/glow.js:1296-1300 | corrected, a `//` comment stops on the first line-break token, or at the end |
| `LexerValue.Whind` | build/glow.js:1512 | `whind(s)` is a lexer over `s` without a peek lexer yet |
| `LexerValue.Advance` | build/glow.js:1013-1183 | `next()` on a lexer without custom symbols moves its cursor as `LexSpec.Next` does and keeps its peek lexer |
| `LexerValue.Peek` | build/glow.js:1243-1260 | peeking leaves the caller's cursor as it was and creates the peek lexer |
| `LexerValue.Expect` | build/glow.js:1200-1210 | `assert(text)` succeeds exactly when the token is `text`, and then advances one token |
| `LexerValue.SyncWithCopy` | build/glow.js:911-937 | syncing with an untouched copy changes nothing, so backtracking to a copy is exact |
| `Js.Trim` | build/glow.js:5527 | `trim()` leaves no white space at either end |
| `Js.TrimIsInner` | build/glow.js:5527 | `trim()` cuts only white space from the ends and keeps everything between |
| `Js.ParseInt` | build/glow.js:5206 | `parseInt` gives an integer or NaN |
| `Js.ParseIntDecimal` | build/glow.js:5206 | `parseInt` reads back every decimal numeral followed by a non-digit, with or without a radix |
| `Js.ParseIntFromDigit` | build/glow.js:5206 | a string starting with a decimal digit, with no hex prefix, reads as the value of its leading digits |
| `Js.DecimalText` | build/glow.js:3955 | a number is written as a non-empty run of decimal digits |
| `Js.DecimalTextValue` | build/glow.js:3955 | the decimal text of `n` has the value `n` |
| `Js.ToInt32` | build/glow.js:1802-1825 | the shift operators read a number as a signed 32-bit integer |
| `Js.LowBits` | build/glow.js:1802-1825 | a mask of `k` low bits gives a value below 2^k |
| `Js.NibbleTwiceIsTimes17` | build/glow.js:1803-1814 | `a \| a << 4` on a nibble is 17 times it |
| `Js.ToLower` | build/glow.js:1885 | `toLowerCase` maps each ASCII capital to its small letter, keeps every other character and keeps the length |
| `Js.Replace` | build/glow.js:5462 | `replace(/x/g, y)` changes exactly the characters equal to x, into y, and keeps the length; `Underscored` (`-` to `_`, line 5462) and `Hyphenated` (`_` to `-`, line 1578) are its two uses |
| `Js.HyphenatedUndoes` | build/glow.js:1578 | writing a stored name back gives the name it was read as, when that had no `_` |
| `Js.UnderscoredUndoes` | build/glow.js:5462 | reading a written name gives back the stored name, when that had no `-` |
| `Js.UnderscoredIdempotent` | build/glow.js:5462 | normalising a name twice is normalising it once, and leaves no `-` |
| `Grammar.NewGroup` | build/glow.js:4556-4564 | a new group holds the terms it is given, does not repeat, and has no comma flag, no prop and no name, and is not virtual |
| `Compiler.Fold` | build/glow.js:5257-5271 | `foldIntoProduction` wraps a term that is not a group in a new one-child JUX, pushes the new term onto the group, returns the new term when there is no term, and changes nothing else |
| `Compiler.Join` | build/glow.js:5087-5091 | with no term read yet, the new term becomes the term; the store only grows |
| `Compiler.D1` | build/glow.js:5071-5192 | a compiled notation leaves a valid term in a store that only grew, and stops on a combinator, a `]` or the end; corrected, it stops only where its group handles what it stops on |
| `Compiler.D1Loop` | build/glow.js:5075-5191 | the same for the loop from a term already read |
| `Compiler.SwitchCase` | build/glow.js:5077-5188 | each case of the switch on `l.ch` keeps the store valid and growing |
| `Compiler.BracketCase` | build/glow.js:5081-5092 | the `[` case keeps the store valid and growing |
| `Compiler.AngleCase` | build/glow.js:5094-5107 | the `<name>` case keeps the store valid and growing |
| `Compiler.AmpCase` | build/glow.js:5109-5132 | a lone `&` is stepped over; at `&&` a child of an AND hands its term back, no term throws, and otherwise the term is the first child of a new AND group (returned as written, continued corrected) |
| `Compiler.BarCase` | build/glow.js:5133-5175 | at `\|\|` a child of an OR or an AND hands its term back, otherwise the term is the first child of a new OR; at a single `\|` a child of any group hands it back, otherwise the term is the first alternative of a new ONE_OF |
| `Compiler.TokenCase` | build/glow.js:5176-5187 | the default case keeps the store valid and growing |
| `Compiler.Separator` | build/glow.js:5124-5128 | a group goes on to its next child exactly at its own combinator (`&&` for AND, `\|\|` for OR, `\|` for ONE_OF), skipping it; otherwise it stops with the lexer where it was |
| `Compiler.Children` | build/glow.js:5124-5170 | the children loop returns the group it fills, still a group, in a store that only grew |
| `Compiler.CheckExtensions` | build/glow.js:5194-5255 | `checkExtensions` keeps the store valid and growing and the definitions untouched |
| `Compiler.MarkImportant` | build/glow.js:5199-5203 | `!` sets the IMPORTANT attribute of that term and changes no other term |
| `Compiler.Multiplier` | build/glow.js:5204-5250 | with no multiplier the term and lexer are unchanged; a multiplier with no term throws |
| `Compiler.MultiplierTable` | build/glow.js:5204-5237 | the bounds follow section 2.3 of CSS Values and Units Module Level 3 as coded: `*` [0,∞] optional, `+` [1,∞], `?` [0,1] optional, on the term's own group or on a new JUX wrapping a non-group term, with the children of that fold |
| `Compiler.MultiplierBraces` | build/glow.js:5204-5219 | `{m}` sets [m,m], `{m,}` [m,∞] and `{m,n}` [m,n], each bound being `parseInt` of its token, on the folded group |
| `Compiler.MultiplierHash` | build/glow.js:5238-5250 | `#` requires a comma and sets [1,∞] when no `{` follows; as written it also appends a `","` SymbolTerm to the children, corrected it does not |
| `Compiler.MultiplierHashBounds` | build/glow.js:5245-5249 | `#{m,n}` needs the tokens m, `,`, n and `}` and sets [m,n] on the folded group |
| `Compiler.CombinatorPrecedence` | build/glow.js:5109-5175 | juxtaposition binds tighter than `&&`, `&&` than `\|\|`, `\|\|` than `\|`: the loop hands its term back at `&&` exactly inside an AND, at `\|\|` exactly inside an OR or an AND, at `\|` exactly inside any group |
| `Compiler.D1HandsBack` | build/glow.js:5115-5159 | `d$1` compiling a child stops at a combinator its group handles, with the term read so far and the lexer on the combinator |
| `Compiler.Star` | build/glow.js:5220-5237 | `*`, `+` and `?` set exactly the bounds of the group |
| `Compiler.Braces` | build/glow.js:5204-5219 | `{m}` sets [m,m], `{m,}` sets [m,∞], the lower bound is `parseInt` of the first number, a missing `}` throws, and nothing else changes |
| `Compiler.BracesUpperBound` | build/glow.js:5207-5213 | in `{m,n}` the upper bound is `parseInt` of n |
| `Compiler.Hash` | build/glow.js:5238-5250 | `#` sets the comma flag and keeps the kind, with [1,∞] when no `{` follows; as written it also appends a `","` SymbolTerm, corrected it does not |
| `Compiler.HashBounds` | build/glow.js:5245-5249 | after `#{` the tokens are m, `,`, n and `}`, and the bounds are [m,n] |
| `Compiler.CommaMarked` | build/glow.js:5238-5243 | before any `{`, `#` makes the group require commas with bounds [1,∞] and keeps its kind; as written it also appends a `","` SymbolTerm, corrected the children are unchanged |
| `Compiler.HashRange` | build/glow.js:5245-5249 | the `{m,n}` after `#` either throws or changes nothing but the group's two bounds |
| `Compiler.HashRangeBounds` | build/glow.js:5245-5249 | a `{m,n}` that does not throw is the tokens m, `,`, n and `}`, and sets the bounds to `parseInt` of m and n |
| `Compiler.ValueTermOf` | build/glow.js:4839-4866 | `<name>`, read with `-` as `_`, is a ValueTerm over a `types` entry first, else the definition's compiled group itself, else a LiteralTerm of the name when nothing defines it |
| `Compiler.VirtualCopy` | build/glow.js:5025-5026 | the virtual table copy holds only notations |
| `Compiler.GetPropertyParser` | build/glow.js:5012-5044 | a defined name is compiled once, stored in place of its notation and named after the property; any other name goes to the lazily copied virtual table, where it is marked virtual, or gives null |
| `Compiler.FromDefinitions` | build/glow.js:5014-5023 | a name with a truthy definition is stored compiled and named after the property |
| `Compiler.FromVirtual` | build/glow.js:5025-5043 | a name found only in the virtual table is stored compiled there and reported virtual; a name found nowhere gives null and changes nothing but the copy |
| `Compiler.CompileVirtual` | build/glow.js:5034-5038 | a virtual notation is compiled, stored back and marked virtual |
| `Compiler.CreatePropertyParser` | build/glow.js:5047-5069 | the compiled term carries the property name as its `prop` |
| `Compiler.LookupMemoised` | build/glow.js:5012-5044 | once a lookup has returned a term, a later lookup of that name returns the same term, from the same table, and compiles nothing |
| `Compiler.D1Pass` | build/glow.js:5077-5188 | one pass of the `d$1` loop either leaves the loop with its result or continues it from the new state |
| `Compiler.CompileNotation` | build/glow.js:5071-5192 | the `while (!l.END)` loop with the state updated in place gives the result that D1 specifies |
| `Compiler.CompileChildren` | build/glow.js:5124-5170 | the children loop gives the result that Children specifies |
| `Compiler.ReadExtensions` | build/glow.js:5194-5255 | the `continue outer` loop over `!` and the multiplier gives the result that CheckExtensions specifies |
| `Values.Accumulate` | build/glow.js:4965-4974 | an empty slot takes the value as a scalar; otherwise the result is a list ending in the value |
| `Values.MergeValues` | build/glow.js:4565-4575 | `mergeValues` leaves every key but `v` as it was; a falsy `v` takes the other accumulator's value, a list `v` gets that value pushed on its end, and any other truthy `v` becomes the two-element list of both values |
| `Values.AccumulateNested` | build/glow.js:4889-4904 | a ValueTerm records a nested result as a list when the slot is full, and as a one-element list in an empty slot when virtual |
| `Values.SetProperty` | build/glow.js:4581-4589 | `sp` adds only the prop's key, and only for a truthy prop and value; every other key keeps its value |
| `Values.AccumulateScalarsThenList` | build/glow.js:4565-4575 | accumulating scalars gives the first one alone, then the list of all of them in order |
| `Evaluator.CheckDefaultsAsWritten` | build/glow.js:4540-4552 | a token that is not a CSS-wide keyword gives 2, and the token position is kept |
| `Evaluator.CheckDefaults` | build/glow.js:4540-4552 | the same for the corrected keyword test, which judges a keyword by the token right after it and counts a token at or past the value lexer's bound as the end of the value |
| `Evaluator.KeywordLastIsValid` | build/glow.js:4540-4552 | corrected, a keyword that is the last token before the value lexer's bound is valid, whatever the peek lexer finds past that bound |
| `Evaluator.DefaultsOneTokenLate` | build/glow.js:4548 | as written a keyword is accepted when the second token after it is the end, so "inherit red" is accepted; corrected only a keyword with no further token of its value is accepted |
| `Evaluator.Record` | build/glow.js:4965-4974 | recording a match accumulates into `v` and keeps every other key |
| `Evaluator.MergeCycle` | build/glow.js:4653-4654 | a cycle with no value leaves the accumulator as it was |
| `Evaluator.AfterComma` | build/glow.js:4624-4631 | without the comma flag repeating goes on; with it, repeating goes on exactly when the token is `,` |
| `Evaluator.Parse` | build/glow.js:4595-4998 | `parse` of each kind of term: a symbol matches its text; a literal or value term at the root first runs the keyword test; a value term hands its nested value or its own to the rule and accumulator; a group runs its repetition loop; running out of fuel or a missing term is reported |
| `Evaluator.Repeat` | build/glow.js:4633-4836 | `innerParser` dispatches on the group kind: JUX, AND, OR or ONE_OF |
| `Evaluator.Commit` | build/glow.js:4653-4662 | a committed cycle syncs the caller's lexer with the copy, merges the cycle's value, and stops when the comma test fails or goes on to the next cycle |
| `Evaluator.JuxTerms` | build/glow.js:4642-4651 | one JUX cycle: the children in order, a required child that fails ends the cycle with false |
| `Evaluator.JuxRepeat` | build/glow.js:4633-4667 | the JUX loop: at most `end` cycles while the lexer is not at its end; a failed cycle stops the loop with the lexer untouched |
| `Evaluator.AndRepeat` | build/glow.js:4684-4741 | the AND loop: a cycle commits when every child has matched or is optional |
| `Evaluator.OrRepeat` | build/glow.js:4744-4796 | the OR loop: a cycle commits when a child has matched in this or an earlier cycle, as NO_HIT is never set back |
| `Evaluator.FirstMatch` | build/glow.js:4813-4818 | one ONE_OF cycle: the first child in order that matches |
| `Evaluator.OneOfRepeat` | build/glow.js:4799-4835 | the ONE_OF loop: a cycle commits when some child matches, and a cycle with no match stops the loop |
| `Evaluator.TargetParse` | build/glow.js:4885-4887 | a leaf parser leaves the rule and the nested accumulator alone |
| `Evaluator.ScanTerms` | build/glow.js:4705-4718 | an AND/OR scan skips matched children and marks the first match 2; marks never go back; an OR marks nothing but matches; a 1 is set only on an optional AND child |
| `Evaluator.RunCycle` | build/glow.js:4700-4724 | the restart loop keeps every 2 mark, sets 1 only on optional AND children, and for an OR clears `NO_HIT` exactly when something matched |
| `Evaluator.RepeatOutcome` | build/glow.js:4637-4667 | a repetition loop returns true once a cycle has committed, and returns false only with the caller's lexer exactly as it was |
| `Evaluator.LastCycle` | build/glow.js:4638-4662 | after the cycle numbered `end - 1` commits the loop returns without another cycle, so at most `end` cycles commit |
| `Evaluator.StopsAtEnd` | build/glow.js:4638 | from cycle `end` on, the loop reads nothing and returns what it has |
| `Evaluator.CommitOutcome` | build/glow.js:4656-4662 | a committed cycle makes the loop's answer true |
| `Evaluator.FailureKeepsPosition` | build/glow.js:4639-4656 | a term that fails leaves the lexer on the token it started from |
| `Evaluator.GroupMatchesIffFirstCycle` | build/glow.js:4637-4667 | a group matches if and only if its first cycle commits |
| `Evaluator.ProductZero` | build/glow.js:4720 | the product of the HIT marks is zero exactly when some mark is zero |
| `Evaluator.AndCycleCommits` | build/glow.js:4700-4724 | an AND cycle commits exactly when every child has matched, or is optional and failed |
| `Evaluator.OrCommitsOnceHit` | build/glow.js:4750-4776 | once an OR child has matched, every later cycle commits, matched or not |
| `Evaluator.OrRunsToEnd` | build/glow.js:4754-4790 | an unbounded OR without commas, once it has matched, stops repeating only at the end of the input |
| `Evaluator.LowerBoundIgnored` | build/glow.js:4633-4667 | a group behaves the same whatever its lower bound holds |
| `Evaluator.LowerBoundCommit` | build/glow.js:4656-4662 | a committed cycle behaves the same whatever the lower bound holds |
| `Evaluator.JuxCycle` | build/glow.js:4642-4651 | the JUX children loop gives the outcome that JuxTerms specifies |
| `Evaluator.FirstMatchCycle` | build/glow.js:4809-4815 | the ONE_OF children loop stops at the first child that matches, as FirstMatch specifies |
| `Evaluator.ScanPass` | build/glow.js:4705-4718 | one pass over the HIT array gives ScanTerms' outcome and leaves its marks in the array |
| `Evaluator.CyclePasses` | build/glow.js:4700-4724 | the `and:`/`or:` loop gives the cycle that RunCycle specifies |
| `Evaluator.ListRound` | build/glow.js:4638-4662 | a JUX or ONE_OF cycle either ends the loop with its result or commits the state it leaves |
| `Evaluator.SetRound` | build/glow.js:4693-4737 | an AND or OR cycle either ends the loop with its result or commits the state it leaves |
| `Evaluator.InnerParser` | build/glow.js:4633-4667 | `innerParser` of all four kinds gives the outcome that the repetition loop specifies |
| `Leaves.TypeOf` | build/glow.js:4018-4053 | the `types` table sends the length-like names to the length parser, `url`/`uri` to the URL parser and `number`/`integer` to the number parser |
| `Leaves.ScanHexRun` | build/glow.js:1788-1790 | the hex scan loop ends where HexRun says: at the first white-space token, `;` or the end, a line break not stopping it |
| `Leaves.HexRun` | build/glow.js:1788-1790 | the hex scan advances a lexer that keeps white space until a white-space token, the end, or `;` |
| `Leaves.HexChannelsAsWritten` | build/glow.js:1797-1826 | the channels as written from the digit count and the parsed number: nibbles times 17 for three or four digits, with the four-digit alpha read from the green nibble; bytes otherwise |
| `Leaves.HexColorAsWritten` | build/glow.js:1780-1826 | the `#` branch with its white-space handling as written (its channels are the corrected HexChannels): it reads the hex run on a copy that keeps white space and syncs with it, so the flag it returns is false |
| `Leaves.HexColor` | build/glow.js:1771-1826 | corrected, the `#` branch reads the same colour and gives the caller's white-space flag back |
| `Leaves.RgbColor` | build/glow.js:1829-1875 | `rgb(`/`rgba(`: three integer channels, each scaled by 255/100 after a `%`, then for `rgba` an alpha, then `)` |
| `Leaves.HexChannels` | build/glow.js:1797-1826 | the corrected channels agree with the code as written except for four digits |
| `Leaves.ThreeDigitValue` | build/glow.js:1797 | `parseInt` of three hex digits is their place value |
| `Leaves.ThreeDigitHex` | build/glow.js:1799-1815 | `#rgb` gives each channel its digit times 17, with alpha 1 |
| `Leaves.SixDigitValue` | build/glow.js:1797 | `parseInt` of six hex digits is their value, byte by byte |
| `Leaves.SixDigitHex` | build/glow.js:1816-1826 | `#rrggbb` gives each channel its pair of digits, with alpha 1 |
| `Leaves.FourDigitValue` | build/glow.js:1797 | `parseInt` of four hex digits is their place value |
| `Leaves.FourDigitHexAlpha` | build/glow.js:1801-1815 | as written `#rgba` takes its alpha from the green digit; corrected it takes it from the last digit |
| `Leaves.HexRunKeepsFlags` | build/glow.js:1782-1790 | the hex scan keeps the white-space flag of the lexer it runs on |
| `Leaves.HexColorWhiteSpace` | build/glow.js:1785-1795 | as written the lexer has stopped ignoring white space after a `#` colour, whatever it did before |
| `Leaves.HexColorKeepsWhiteSpace` | build/glow.js:1785-1795 | corrected, the `#` branch reads the same colour, ends on the same token and keeps the caller's white-space setting |
| `Leaves.ColorParse` | build/glow.js:1771-1892 | a colour that does not parse leaves the lexer where it was |
| `Leaves.LengthOf` | build/glow.js:2200-2238 | a `%` unit makes a percentage; a listed length unit, `s`, `ms` or no unit is kept; any other unit is dropped to "" as the constructor does, and apart from `s` and `ms` the value is the one written |
| `Leaves.LengthOfAsWritten` | build/glow.js:2200-2238 | the constructor as written keeps a listed length unit, turns `%` into a percentage, and drops any other unit to "" |
| `Leaves.TimeUnitsDropped` | build/glow.js:2208-2245 | as written `1s` and `1ms` make the same value and `milliseconds` never scales; with units kept they differ and seconds scale by 1000 |
| `Leaves.SignedAmount` | build/glow.js:2079-2086 | a signed amount leaves the cursor where it was and moves only the peek lexer |
| `Leaves.LengthParse` | build/glow.js:2176-2193 | `CSS_Length.parse` gives a length or percentage, or nothing with the lexer where it was |
| `Leaves.PercentageParse` | build/glow.js:2075-2094 | `CSS_Percentage.parse` gives a percentage, or nothing with the lexer where it was |
| `Leaves.NumberParse` | build/glow.js:3056-3071 | `CSS_Number.parse` gives a number, or nothing with the lexer where it was |
| `Leaves.IdParse` | build/glow.js:3001-3010 | `CSS_Id.parse` succeeds exactly on an identifier token, gives its text and advances; otherwise the lexer is unchanged |
| `Leaves.UnquotedAsWritten` | build/glow.js:2994-2998 | the constructor as written drops the ends after a leading `"` or `'` only |
| `Leaves.Unquoted` | build/glow.js:2994-2998 | corrected, the ends are dropped after any string delimiter of the lexer |
| `Leaves.BacktickString` | build/glow.js:2995 | a backtick string keeps its backticks as written and loses them once corrected |
| `Leaves.StringParse` | build/glow.js:2985-2992 | `CSS_String.parse` succeeds exactly on a string token; otherwise the lexer is unchanged |
| `Leaves.ScanUrl` | build/glow.js:2947-2949 | the bare-URL loop ends where UrlScan says |
| `Leaves.UrlScan` | build/glow.js:2947-2949 | the bare-URL loop advances the peek lexer and stops on a `)` token or the end |
| `Leaves.AddressEnd` | build/glow.js:2947-2949 | a bare address ends on a `)` or the end; corrected, a `)` that the peek lexer already holds ends it, and otherwise the scan is UrlScan's |
| `Leaves.UrlParseWith` | build/glow.js:2939-2960 | `url(`/`uri(` or a quoted string, and only those, give a URL or throw; a quoted string gives itself without its quotes and advances; a failure leaves the lexer where it was |
| `Leaves.UrlParseAsWritten` | build/glow.js:2939-2960 | `CSS_URL.parse` as written; a failure leaves the lexer where it was |
| `Leaves.UrlParse` | build/glow.js:2939-2960 | `url(`/`uri(` or a quoted string, and only those, give a URL or throw; a quoted string gives itself without its quotes and advances; a failure leaves the lexer where it was |
| `Leaves.QuotedUrl` | build/glow.js:2940-2945 | `url("x")` gives the address `x` and leaves the lexer past the `)`, as written and corrected |
| `Leaves.BareUrl` | build/glow.js:2946-2951 | `url(a.b)` gives the address `a.b` read across three tokens up to the `)`, as written and corrected |
| `Leaves.OneTokenUrlThrows` | build/glow.js:2947-2950 | as written `url(a)` throws: the scan starts past `a`, runs over the `)` to the end, and `a(")")` fails |
| `Leaves.OneTokenUrlReads` | build/glow.js:2947-2950 | corrected, `url(a)` gives the address `a` and leaves the lexer at the end |
| `Leaves.ParseLeaf` | build/glow.js:4018-4038 | every modelled leaf parser that fails leaves the token position where it was, and a success is a leaf value |
| `Properties.CommentLx` | build/glow.js:5465-5468 | skipping a comment keeps the lexer settled |
| `Properties.ValueEnd` | build/glow.js:5472-5476 | the value scan stops on a `;`, a `}` or the end |
| `Properties.ValueStop` | build/glow.js:5472-5476 | a value's stop, as written or corrected, is a `;`, a `}` or the end |
| `Properties.AfterValue` | build/glow.js:5477-5478 | the reading lexer after the value stays settled |
| `Properties.ValueLexer` | build/glow.js:5477-5479 | the value's parser reads from the value's first token to its stop |
| `Properties.Declare` | build/glow.js:5480-5495 | only a name with an entry in the definitions can change the property map; the definitions only grow |
| `Properties.ParsePropertySpec` | build/glow.js:5461-5497 | a declaration that completes leaves the lexer settled and the definitions grown |
| `Properties.PropertyAt` | build/glow.js:5461-5497 | the same for one declaration or comment |
| `Properties.ApplyPropertiesSpec` | build/glow.js:5320-5323 | a block that completes leaves the lexer settled and the definitions grown |
| `Properties.ApplyFrom` | build/glow.js:5321 | the same from a declaration inside the block |
| `Properties.PropertyEndsByText` | build/glow.js:5461-5497 | where a declaration ends, and whether it throws, depends on the text alone, not on the definitions or what its parser made of the value |
| `Properties.DeclarationEndsByText` | build/glow.js:5470-5497 | the same for a declaration that does not start with a comment |
| `Properties.ApplyStep` | build/glow.js:5320-5323 | `_applyProperties_` ends after one `next` at a `}` or the end, and otherwise reads one declaration and goes on |
| `Properties.BlockEndsByText` | build/glow.js:5320-5323 | a rule block ends in the same place whatever the definitions make of its declarations |
| `Properties.UndefinedNameKeepsProps` | build/glow.js:5485-5491 | a name found only among the virtual definitions, or nowhere, leaves the property map unchanged |
| `Properties.StoredNameReadsBack` | build/glow.js:5462 | a stored name has no `-`, and writing it with `-` and reading it again gives it back |
| `Properties.EmptyValueSwallowsNext` | build/glow.js:5472-5476 | as written an empty value's scan starts one token on and runs on to the next declaration's stop |
| `Properties.EmptyValueEndsAtItsStop` | build/glow.js:5472-5496 | corrected, an empty value gives an empty value lexer and reading resumes right after its own `;`, or at its `}` |
| `Properties.ScanValue` | build/glow.js:5473-5476 | the peek loop ends where ValueEnd says |
| `Properties.ScanDeclarationValue` | build/glow.js:5472-5479 | the value's fenced lexer and the resuming lexer are the specification's |
| `Properties.ParseProperty` | build/glow.js:5461-5497 | `parseProperty` gives the specification's outcome; the rule takes the property map only when the declaration completes; counts and version are unchanged |
| `Properties.ApplyPass` | build/glow.js:5321 | one pass of the loop either ends the block with the specification's outcome, or reads one declaration and the rest of the block is the specification's |
| `Properties.ApplyProperties` | build/glow.js:5320-5323 | `_applyProperties_` gives the specification's outcome, and the rule holds the block's properties when it completes |
| `Selectors.CloseShaped` | build/glow.js:5521-5532 | closing a selector at `,` or `{` keeps the lists well tagged and adds one |
| `Selectors.ParseSelectorSpec` | build/glow.js:5511-5607 | `parseSelector` runs its loop from an empty selector list at the lexer's token |
| `Selectors.SelectorLoop` | build/glow.js:5518-5606 | the loop takes one switch step per pass until a step ends it at `{` or the end |
| `Selectors.SelectorStep` | build/glow.js:5520-5600 | the switch on the token: `{` and `,` close the selector, `[` reads an attribute selector, `*` is passed over, `>`/`~`/`+` tag the compound, `.`/`#`/`:` followed by an identifier add to it, and a name starts a compound or makes the one in hand a descendant; anything else that is not an identifier throws |
| `Selectors.AttributeEnd` | build/glow.js:5534-5535 | the peek lexer advances to the `]` token or the end |
| `Selectors.StepShaped` | build/glow.js:5518-5600 | each pass of the switch keeps the lists well tagged, and a finished list stops on `{` |
| `Selectors.SelectorLoopShaped` | build/glow.js:5518-5606 | the loop returns one text per selector, each selector's compounds running from an untagged subject through tagged ones, and stops at `{` or the end |
| `Selectors.SelectorShaped` | build/glow.js:5511-5607 | the same for `parseSelector` |
| `Selectors.CombinatorTagsCompound` | build/glow.js:5570-5587 | `>`, `~` and `+` push the compound read so far tagged as child, general sibling or adjacent sibling, and start a new one |
| `Selectors.NameAfterNameIsDescendant` | build/glow.js:5589-5592 | a name after a compound that has an element name pushes that compound as a descendant, without moving the lexer |
| `Selectors.NameStartsCompound` | build/glow.js:5593-5598 | a name in a compound with no element name becomes its element name and the lexer moves on |
| `Selectors.LastPass` | build/glow.js:5521-5532 | at `{` the selector is closed and the loop ends |
| `Selectors.ChildPasses` | build/glow.js:5570-5598 | `c1 > c2` takes three passes and leaves c1 pushed as a child compound and c2 as the element name |
| `Selectors.DescendantCloses` | build/glow.js:5521-5598 | a name and `{` after that push c2 as a descendant and close the selector |
| `Selectors.ChildThenDescendant` | build/glow.js:5511-5607 | `c1 > c2 c3 {` gives one selector whose compounds, subject first, are c3 untagged, c2 descendant and c1 child, with its trimmed text |
| `Selectors.ScanAttribute` | build/glow.js:5534-5535 | the `[` scan ends where AttributeEnd says |
| `Selectors.AttributePass` | build/glow.js:5533-5542 | the `[` case is the specification's step |
| `Selectors.SelectorPass` | build/glow.js:5520-5600 | one pass of the switch on `lexer.tx` is the specification's step |
| `Selectors.LoopPass` | build/glow.js:5518-5601 | one pass of the loop either ends it with its result or continues from the new state |
| `Selectors.ParseSelector` | build/glow.js:5511-5607 | `parseSelector` as a loop gives the specification's result |
| `Rules.AppendNewKeeps` | build/glow.js:1586-1593 | after a merge the old key order is a prefix, and the keys are exactly the old ones and the merged ones |
| `Rules.AppendNew` | build/glow.js:1586-1593 | assigning keys one by one keeps a present key in its place and puts a new one last |
| `Rules.Overlaid` | build/glow.js:1588-1589 | assigning each key of the other rule in turn writes its value over the map |
| `Rules.AppendPresent` | build/glow.js:1586-1593 | merging keys that are all present already moves no key |
| `Rules.AppendNewDistinct` | build/glow.js:1586-1593 | a merge keeps every key listed once |
| `Rules.OverlaidUnion` | build/glow.js:1588-1589 | assigning every key in turn gives the map union, with the assigned values winning |
| `Rules.MergeListed` | build/glow.js:1586-1593 | a merge keeps the key list in step with the map |
| `Rules.MergeIdempotent` | build/glow.js:1586-1593 | merging the same rule twice gives the map and key order of merging it once |
| `Rules.Indent` | build/glow.js:1561-1562 | the indent is four spaces per level |
| `Rules.RuleText` | build/glow.js:1560-1584 | `toString(off, rule)`: with a rule name, that property's value text, or nothing when it is falsy; without one, every declaration line in key order |
| `Rules.DeclarationsAppend` | build/glow.js:1574-1582 | the text of a key list split in two is the text of each part |
| `Rules.MergedText` | build/glow.js:1574-1593 | merging a rule whose keys are all new writes the old lines followed by the merged rule's lines |
| `Rules.AppendAllNew` | build/glow.js:1586-1593 | merging distinct new keys appends them in order |
| `Rules.SameValues` | build/glow.js:1574-1582 | the lines of a key list read only the values of those keys |
| `Rules.DeclarationNameReadsBack` | build/glow.js:1578 | the name a line writes reads back as its key |
| `Rules.KeptListed` | build/glow.js:5487-5488 | the keys kept after a write are listed once each, and are the listed keys the map still has |
| `Rules.KeptAll` | build/glow.js:5487-5488 | a map that only gained keys keeps the whole list |
| `Rules.KeptKeys` | build/glow.js:5487-5488 | the loop gives the kept keys |
| `Rules.WithNewKeys` | build/glow.js:5487-5488 | the kept keys, followed by every other key of the map, list the map |
| `Rules.Rule.constructor` | build/glow.js:1525-1539 | a new rule has no properties, is not loaded, and has version 0 and no references |
| `Rules.Rule.IncrementRef` | build/glow.js:1541-1543 | the count goes up by one and nothing else changes |
| `Rules.Rule.DecrementRef` | build/glow.js:1545-1551 | the count goes down by one and nothing else changes |
| `Rules.Rule.Merge` | build/glow.js:1586-1593 | `merge` gives the union of the property maps with the other rule's values winning, appends its new keys in its order, sets LOADED and raises the version by one |
| `Rules.Rule.Assign` | build/glow.js:5487-5488 | after a parser wrote into the map, the keys still there keep their places at the front |
| `Rules.Rule.ToString` | build/glow.js:1560-1584 | `toString` gives the declaration lines, or one property's value, as RuleText describes them |
| `RuleBodies.SelectorIdCollides` | build/glow.js:4494-4496 | the lists `a, b` and `ab` differ but their ids as written are equal |
| `RuleBodies.ImportEnd` | build/glow.js:5690-5693 | the scan past a failed `@import` keeps the lexer settled |
| `RuleBodies.ImportEndStops` | build/glow.js:5692 | the scan ends at the end of the input or on a `;` |
| `RuleBodies.SkipImport` | build/glow.js:5692 | the loop ends where ImportEnd says |
| `RuleBodies.TokenShaped` | build/glow.js:5719-5728 | a selector list read by the loop is well shaped and leaves the lexer at `{` or the end; the loop's other ways out keep the definitions |
| `RuleBodies.BodyToken` | build/glow.js:5625-5728 | the switch on a character other than `{`: `}` ends the body, `@media` and `@import url` leave the loop, `@import` without a URL is passed to its `;`, a comment is passed over, and otherwise a selector list is read |
| `RuleBodies.ReadToken` | build/glow.js:5625-5728 | one pass on a character other than `{` is the specification's |
| `RuleBodies.Selector.constructor` | build/glow.js:4473-4492 | a new selector holds its texts and compounds and has no rule |
| `RuleBodies.Selector.RemoveRule` | build/glow.js:4521-4526 | the rule, if any, loses one reference and nothing else; the selector has no rule |
| `RuleBodies.Selector.AddRule` | build/glow.js:4528-4536 | the old rule loses a reference and the new one gains one, unless they are the same rule |
| `RuleBodies.RuleBody.OneSelectorPerList` | build/glow.js:5723-5727 | corrected, two selectors are the same exactly when their text lists are, and each list has one selector |
| `RuleBodies.RuleBody.constructor` | build/glow.js:5305-5318 | a new body has no selectors and no rules |
| `RuleBodies.RuleBody.Bind` | build/glow.js:5707-5709 | a selector without a rule takes the rule; one with a rule merges the new rule into it |
| `RuleBodies.RuleBody.BindAll` | build/glow.js:5707-5709 | every pending selector takes or merges the rule, and `MERGED` tells whether any had one |
| `RuleBodies.RuleBody.AttachRule` | build/glow.js:5702-5716 | after a block, the selectors are bound to the rule, and it joins the body's rules only when none merged it |
| `RuleBodies.RuleBody.AddSelector` | build/glow.js:5719-5728 | a parsed list gives the selector already indexed under it, or a new one indexed and listed last |
| `RuleBodies.RuleBody.ReadBlock` | build/glow.js:5704-5706 | a block is read into a fresh, unloaded rule, as ApplyPropertiesSpec says |
| `RuleBodies.RuleBody.OpenBlock` | build/glow.js:5702-5716 | the `{` case reads the block that follows the `{`, binds or merges the new rule and adds it unless merged; a block that throws leaves selectors and rules as they were |
| `RuleBodies.BlockAfter` | build/glow.js:5704-5706 | the properties of the block after a `{`, read into an empty map |
| `RuleBodies.RuleBody.BracePass` | build/glow.js:5702-5716 | at `{`: a pending selector without a rule takes a fresh rule holding the block's properties, which is appended; one with a rule gets the properties added to its rule and nothing is appended; with no pending selector a fresh rule is appended; the index and selectors stay; a block that throws changes no rule |
| `RuleBodies.RuleBody.TokenPass` | build/glow.js:5625-5728 | off `{`: the loop's other exits leave with the body token's result and change nothing; a selector list becomes the one pending selector, the indexed one when its list is already indexed, otherwise a fresh one with no rule that is indexed under the list and listed last |
| `RuleBodies.RuleBody.Pass` | build/glow.js:5624-5729 | one pass is BracePass's at `{` and TokenPass's elsewhere; it only adds selectors and rules, keeps every selector's rule, and grows the definitions |
| `RuleBodies.RuleBody.Round` | build/glow.js:5624-5729 | a pass keeps every indexed selector under its list, as well as Pass's growth of selectors, rules and definitions |
| `RuleBodies.RuleBody.Parse` | build/glow.js:5616-5734 | the loop only adds selectors and rules, in order, keeps every indexed selector under its list, and the definitions only grow |
| `Urls.Split` | build/glow.js:2449-2450 | `split` gives at least one piece, and no piece holds the separator |
| `Urls.JoinSplit` | build/glow.js:2449-2464 | joining the pieces of a split gives the text back |
| `Urls.SplitJoin` | build/glow.js:2449-2464 | splitting pieces joined with a separator none holds gives the pieces back |
| `Urls.ResolveRelative` | build/glow.js:2443-2469 | the method's path is the one ResolvedPath gives |
| `Urls.ResolvedPath` | build/glow.js:2443-2469 | a path starting with `/` is kept; otherwise the new path's segments are walked from the old path, as written after the old file name and corrected from its directory |
| `Urls.Walk` | build/glow.js:2452-2463 | the segment loop: `.` and `..` drop the last segment, any other segment is appended |
| `Urls.WalkNames` | build/glow.js:2454-2463 | plain names are appended in order |
| `Urls.NamesAfterFileAsWritten` | build/glow.js:2447-2464 | as written, `d.css` against `/a/b/c.css` gives `/a/b/c.css/d.css` |
| `Urls.NamesInDirectory` | build/glow.js:2447-2464 | corrected, plain names are resolved in the old path's directory |
| `Urls.ParentDirectory` | build/glow.js:2453-2459 | a leading `..` drops the file name and the directory it is in |
| `Urls.CurrentDirectory` | build/glow.js:2456-2458 | a leading `./` resolves like the bare names |
| `Urls.PathMarkOnce` | build/glow.js:2662-2663 | a path is written with exactly one leading `/` |
| `Urls.QueryMarkOnce` | build/glow.js:2665-2666 | a query is written with exactly one leading `?` |
| `Urls.LeadingMarksOnce` | build/glow.js:2648-2673 | the text does not depend on whether the path carries its `/` or the query its `?` |
| `Urls.UrlText` | build/glow.js:2648-2673 | `toString()`: the host part, `:port` when the port is not 0, the path, the query and `#hash` when present |
| `CssPaths.ToString` | build/glow.js:3887-3956 | the loop's text is the pieces of the array joined with spaces |
| `CssPaths.PathPieces` | build/glow.js:3887-3956 | each opcode pushes its letter (none for `pairs`) and its operands; an arc or unknown opcode is dropped with the element after it |
| `CssPaths.PiecesOfCommands` | build/glow.js:3887-3956 | a well-formed command array writes each command's letter (none for `pairs`) and then its own numbers, in order |
| `CssPaths.ShortMove` | build/glow.js:3891-3893 | an `M` with one number writes the missing one as nothing after a space |
| `Findings.OrReturnsAsWritten` | build/glow.js:5136-5153 | as written `a \|\| b \| c` returns the OR at the `\|`, where no group takes it |
| `Findings.OrContinuesCorrected` | build/glow.js:5136-5153 | corrected, the OR becomes the term and the loop goes on at the `\|` |
| `Findings.BracketAppendsAsWritten` | build/glow.js:5087-5089 | as written `[a \| b] [c]` pushes the second group into the first as a third alternative |
| `Findings.BracketWrapsCorrected` | build/glow.js:5087-5089 | corrected, the two groups become the children of a new JUX |
| `Findings.CommaListAsWritten` | build/glow.js:5238-5240 | as written a one-item `#` list not followed by a comma does not match and reads nothing |
| `Findings.CommaListCorrected` | build/glow.js:5238-5243 | corrected, the item is read and the lexer ends where it ended |
| `Findings.GroupAtRoot` | build/glow.js:4603-4617 | a group at the root, on a token that is not a CSS-wide keyword, parses as its repetition loop |
| `Findings.LiteralMatches` | build/glow.js:4961-4980 | a LiteralTerm matches a token with its text, advances and leaves the rule alone |
| `Findings.HashCompiles` | build/glow.js:5238-5244 | `a#` compiles to a JUX with [1,∞] and the comma flag, over the literal and a `","` term as written, and over the literal alone corrected |
| `Findings.HashListAtRoot` | build/glow.js:5238-5240 | at the root, on an `a` not followed by a comma, `a#` fails as written and matches corrected |
| `Findings.HashListOfOne` | build/glow.js:5238-5240 | `name: a#` on the value `a` fails and reads nothing as written, and matches the whole value corrected |
| `Findings.KeywordBeforeStopIsValid` | build/glow.js:4540-4552 | corrected, in `color:inherit;` and `color:inherit}` the value lexer fenced at the stop accepts `inherit`, as the source does |
| `Findings.KeywordWithOtherValueIsInvalid` | build/glow.js:4540-4552 | corrected, in `color:inherit red;` the keyword shares its value with `red` and is rejected |

## Left out

- Exceptions are a failure outcome (`Threw`) rather than a thrown object. `errorMessage` and `throw` only build the message, so they are not modelled.
- The lexer's `trim`, `reset`, `resetHead`, `setString`, `assertCharacter`, `toString` and `string_length` are not used by the modelled parsers and are not modelled.
- Characters are UTF-16 code units taken one per `char`. A position outside the string reads as -1, standing for NaN. Characters outside the Basic Multilingual Plane are not modelled.
- Packing: the lexer's fields are unpacked into a cursor, and the packed word is proved separately. Lengths of 2^24 and more do not survive the packing in the source, and the model keeps them exact.
- Fuel: the recursive specifications carry a `fuel` count and give a no-fuel outcome when it runs out. The unbounded OR loop of the source does not terminate where `Evaluator.OrRunsToEnd` shows it would spin, and the model ends there for lack of fuel.
- Evaluator.CheckDefaults and the other parsers read the token after the keyword with a fresh peek lexer over the whole string, as `new Lexer(str)` does in the source, so the peek ignores the fence of a declaration value. The corrected keyword test therefore treats a peeked token at or past the value lexer's bound as the end of the value. A reused peek lexer with a lowered bound is modelled exactly only by the `LexerObject.Lexer` class.
- Value results are immutable values. Pushing into an array that is shared between a rule's property map and an accumulator (aliasing) is not modelled.
- An exception inside a grammar evaluation drops that evaluation's writes to the property map, although the source keeps writes made before the throw. Compilation memo entries written before a throw are likewise not kept.
- Properties.Declare: `_getPropertyHook_` always returns false in the source, so the hook is taken as false.
- The `console.warn` and `console.log` reports of unknown properties and caught exceptions are not modelled.
- Rules.Rule.Assign: the order among keys that a grammar evaluation added is the order the model chooses. JavaScript's order for such keys (integer-like keys first, then insertion order) is not modelled.
- JavaScript prototype keys (such as `toString` as a property name) are not modelled.
- Rules.Rule.DecrementRef: the `debugger` statement at zero references does nothing here.
- RuleBodies.RuleBody.AttachRule: proved for at most one pending selector, which is what the loop ever holds, because `parseSelector` reads the whole list up to its `{`.
- RuleBodies.RuleBody.Parse: which selectors get indexed, which rules are appended and with which properties is stated pass by pass (`RuleBodies.RuleBody.BracePass`, `RuleBodies.RuleBody.TokenPass`); across the whole loop only the growth of the selectors, the index, the rules and the definitions is stated, and "a selector keeps its rule" only per pass. Composing the per-pass results over the loop would need a specification function of the whole body, which the model does not have.
- The `@media` branch, the fetched `@import` branch and the Promise around `parse` are not modelled. The loop stops there with an outcome that names the branch.
- The push of the body into its root (`root.push(this)`), the `selector.root` back-pointer, `media_selector`, CSSRootNode and the LinkedList glue are not modelled.
- Leaf parsers that are not part of this model (shape, bezier, gradient, transform, path, font name, the media handles) are a parameter of the evaluator.
- Floating point is not modelled. Numbers are integers or token text. The `rgb()` percentage scaling and the `parseFloat` alpha of `rgba()` are kept as the token text they read.
- `CSS_Path` numbers are integers, and `FromString` and the constructor are not modelled.
- The URL constructor, its query parsing, fetch and history are not modelled. `URL.toString` is modelled on the parts of a URL, with the port as a natural number.
- LexSpec.NextWithinBound: bounds where a token starts, not where it ends; an unterminated string runs one past the bound (build/glow.js:1115-1117) and a data-link escape always takes four characters.
- Js.ToLower: ASCII letters only; Unicode case mapping is not modelled.
- The Spark scheduler, the UI editing layer and the animation code are outside this model.

## Findings

| source | as written | input that shows it | evidently intended | confidence | as-written member | corrected member |
|---|---|---|---|---|---|---|
| build/glow.js:1296-1300 | the `//` branch saves the white-space flag but never turns it off, so with white space ignored `next` never reports the line break and the loop runs to the end of the input | `a//x` + line break + `b` on a lexer that ignores white space | the comment ends at the line break | not executed | `LexerObject.LineCommentRunsToEnd` | `LexerObject.LineCommentStopsAtBreak` |
| build/glow.js:4548 | `lx.pk.pk.END` looks two tokens past the keyword | `inherit red` is accepted as `inherit` | a keyword is valid only when it is the last token of its value | not executed | `Evaluator.DefaultsOneTokenLate` | `Evaluator.CheckDefaults` |
| build/glow.js:5136-5153 | after `\|\|` children stop at a single `\|`, `d$1` returns the OR at once, and no enclosing group handles the `\|` | the notation `a \|\| b \| c` | the OR becomes the term and the `\|` makes it an alternative of a ONE_OF | not executed | `Findings.OrReturnsAsWritten` | `Findings.OrContinuesCorrected` |
| build/glow.js:5087-5089 | a `[` group after a group without multiplier is pushed into that group | `[a \| b] [c]` makes `[c]` a third alternative | juxtaposition of the two groups | not executed | `Findings.BracketAppendsAsWritten` | `Findings.BracketWrapsCorrected` |
| build/glow.js:5238-5240 | `#` appends a required `","` term as well as setting the comma flag | `name: a#` with the value `a` does not match | a comma only between repetitions | not executed | `Findings.CommaListAsWritten` | `Findings.CommaListCorrected` |
| build/glow.js:1801-1805 | the four-digit alpha is read from `(num >> 8) & 0xF`, the green digit | `#f00a` gets alpha 0 | alpha from the last digit, 0xaa | not executed | `Leaves.FourDigitHexAlpha` | `Leaves.HexChannels` |
| build/glow.js:1785-1795 | the scan copy has white space turned on, and `sync` copies that flag back | any `#` colour; the lexer then reports white-space tokens | the lexer keeps its own flag | not executed | `Leaves.HexColorWhiteSpace` | `Leaves.HexColorKeepsWhiteSpace` |
| build/glow.js:2200-2245 | no `s`/`ms` case in the constructor, so time lengths lose their unit | `1s` and `1ms` are the same value | the unit is kept and `milliseconds` scales seconds | not executed | `Leaves.TimeUnitsDropped` | `Leaves.LengthOf` |
| build/glow.js:2995 | the test names the single quote twice and never the backtick | the string token `` `a` `` keeps its backticks | every delimiter the lexer accepts is stripped | not executed | `Leaves.UnquotedAsWritten` | `Leaves.Unquoted` |
| build/glow.js:5472-5476 | the value scan starts on the peek lexer, one token on, so an empty value's own stop is skipped | `a{color:;top:1px}` swallows `top:1px` into `color` | an empty value ends at its own `;` | not executed | `Properties.EmptyValueSwallowsNext` | `Properties.EmptyValueEndsAtItsStop` |
| build/glow.js:4494-4496 | the id joins the selector texts with nothing between them | `a,b{color:red}ab{top:0}` gives both lists one selector | one selector per list of texts | not executed | `RuleBodies.SelectorIdCollides` | `RuleBodies.RuleBody.OneSelectorPerList` |
| build/glow.js:2947-2948 | `p = l.peek()` already holds the token after the address's first one, and the loop calls `p.next()` before it tests for `)` | `url(a)`: the scan passes the `)`, reaches the end, and `a(")")` throws | the address runs up to its own `)` | not executed | `Leaves.OneTokenUrlThrows` | `Leaves.OneTokenUrlReads` |
| build/glow.js:2447-2464 | plain names are pushed after the old path's file name | `d.css` against `/a/b/c.css` gives `/a/b/c.css/d.css` | `/a/b/d.css` | not executed | `Urls.NamesAfterFileAsWritten` | `Urls.NamesInDirectory` |
