# angel-communication: the text pipeline of the framework, in Dafny

This project models the core of the `framework/` directory of angel-communication, a small
conversational agent written in C++. It covers these parts:

- **String** (`framework/string.cpp`) is an owned `char` buffer with a recorded length.
  It offers resizing, the `setData` family, the four `append` overloads, `insert`, `remove`,
  `subscript`, trimming, ASCII case mapping, the numeric, path and string validators, the path and
  extension helpers, `findString`, `compareTo`/`icompareTo` and the case-insensitive `operator==`.
- **Lexer** (`framework/lexer.cpp`) splits a String into its maximal runs of characters other
  than space, tab, CR, LF and the terminator, and appends them to its token list. It also has
  indexed access and two first-match searches.
- **Sentence** (`framework/sentence.cpp`, `framework/sentence.h`) tags every token from
  fixed word tables. It then walks the tokens once, building sentence parts (statement,
  question or command) with their interrogative, command, subject verb, subject, linking verb
  and predicate.
- **WordType** (`framework/wordtypes.cpp`) gives the filler, cancel, false and true flags of
  a message.
- **Persona** (`framework/persona.cpp`) keeps the tokens it has been told and answers them with
  one of two replies when it thinks.
- **Conversation** (`framework/conversation.cpp`) is a list of personas without duplicates, with
  add, remove and broadcast.

The modules follow the files: `LibC` (the C library calls the code relies on: `strlen`,
`strcmp`, `strcasecmp`, `strstr` and `strcat`, as functions on buffers), `Strings`, `Lexing`,
`Sentences`, `SentenceExamples` (the worked examples), `WordTypes`, `Personas` and
`Conversations`, with `Wrappers` (Option) and `Seqs`
(sequence lemmas) beside them.

A String is a class with fields `data` (the `len` characters of its heap buffer, NULs
allowed) and `len`. The terminator after them is implicit, and an empty String is the NULL
buffer. Its text, `CStr()`, is the C string the buffer holds: everything before the first NUL.
Every method is proved against a function of the old buffer: `Resize`, `Appended`, `LTrimmed`,
`RTrimmed`, `Trimmed`, `UpperRange`, `LowerRange`, `DirPart`, `FilePart`, `ExtOf`,
`ExtReplaced` and `RemovedBuffer`. Lemmas then state the properties of those functions.

The Lexer is a class whose `tokens` field is a sequence of texts. `parse` is proved to
append `Tokenize(text)`, the specification of tokenization, and the lemmas about `Tokenize`
state what the lexer promises.

`Sentence::parse` is specified by a fold. `Step` is one turn of the loop. `Walked` runs the
loop over a prefix of the tokens, holding the part being built, the two reading flags, the
first token of the part and the parts pushed so far. `PartsOf` then pushes the last part.
`Sentence.Parse` runs the two loops of the source over a tag array of 1024 entries and is
proved to push `SentenceParts`. The worked examples in the header of `framework/sentence.h`
are proved as lemmas over every sentence of the same shape. The module `SentenceExamples`
then proves each of those sentences itself: the exact list of parts parse makes of its
tokens, and, by `PartsOfJoinedWords`, of its text.

Where the code's own comments and the code disagree, the model follows the code:
- `subscript` with start > end returns the empty String, not a backward copy.
- `toLower` with the default end of 0 changes nothing.
- `replaceEXT` with an empty extension and a dot found returns true and leaves the String as
  it was.
- The filler table has no "uh".

`Lexer::toString` is declared in `framework/lexer.h` but has no body in this model. It is taken
to join the tokens `first..last` (inclusive, cut to the last token) with single spaces; this
is an assumption.

## Model

| member | source | states |
|---|---|---|
| Strings.String.constructor | framework/string.cpp:80-84 | the default String is the NULL buffer: no characters, length 0 |
| Strings.String.FromCString | framework/string.cpp:70-75 | String(const char *) holds the text, and NULL gives the empty String |
| Strings.String.Copy | framework/string.cpp:51-57 | the copy holds exactly the original's text, cut at its first NUL |
| Strings.String.CopyFrom | framework/string.cpp:59-65 | the copy from a pointer holds the original's text; NULL gives the empty String |
| Strings.String.CStr | framework/string.cpp:104-114 | c_str is the longest NUL-free prefix of the buffer, so a NUL follows it when it is shorter than the buffer |
| Strings.String.Ptr | framework/string.cpp:104-114 | the data pointer is NULL exactly when the length is 0, and it otherwise points at the text |
| Strings.String.IsEmpty | framework/string.cpp:555-558 | isEmpty tests the recorded length, not the text |
| Strings.String.CharAtIndex | framework/string.cpp:1276-1286 | the character at an index below the length, and NUL past it |
| Strings.String.SetLen | framework/string.cpp:129-162 | the buffer becomes its first n characters, padded with NUL to n, and the length becomes n |
| Strings.ResizeText | framework/string.cpp:129-162 | shortening to n keeps the first n characters of the text, and lengthening keeps all of it |
| Strings.String.SetData | framework/string.cpp:190-225 | setData(NULL) changes nothing; otherwise the String holds exactly the given text |
| Strings.String.SetDataFrom | framework/string.cpp:167-171 | the String takes the other's text, but an empty other passes NULL and changes nothing |
| Strings.String.SetDataFromPtr | framework/string.cpp:176-185 | as SetDataFrom, and a NULL pointer changes nothing |
| Strings.String.CompareTo | framework/string.cpp:230-269 | the result is -1, 0 or 1; it is 0 for NULL; otherwise it is 0 exactly when the texts (or their first n characters) are equal |
| Strings.CompareToAntisymmetric | framework/string.cpp:258-269 | comparing a with b gives the negation of comparing b with a |
| Strings.String.ICompareTo | framework/string.cpp:274-313 | as CompareTo, with 0 exactly when the texts are equal up to ASCII case |
| Strings.String.Equals | framework/string.cpp:1300-1303 | operator== holds exactly when the texts are equal up to ASCII case |
| Strings.EqualsIsEquivalence | framework/string.cpp:1300-1303 | operator== is reflexive, symmetric and transitive |
| Strings.String.ValidString | framework/string.cpp:320-354 | validString(min) holds exactly when the length is at least min and the first character is not NUL, LF, CR, tab or byte 0xCC |
| Strings.ValidCString | framework/string.cpp:361-397 | the static validString holds exactly for a non-NULL, non-empty text of at least min characters that does not start with one of those characters |
| Strings.ValidStringAgrees | framework/string.cpp:320-397 | the two validString forms agree on every non-empty String; on the empty one the member accepts min 0 and the static one refuses |
| Strings.String.Append | framework/string.cpp:990-1003 | an empty argument changes nothing; into an empty String the buffer becomes the argument's text; into a non-empty String the buffer becomes `Appended` of the old buffer, with the length the two lengths plus one and a final NUL; in every case the text becomes the old text followed by the argument's |
| Strings.String.AppendPtr | framework/string.cpp:1009-1026 | NULL and an empty argument change nothing; otherwise the text becomes the old text followed by the argument's; into an empty String the argument's text is copied; into a non-empty String the buffer becomes `Appended` of the old buffer, with the length the two lengths plus one and a final NUL |
| Strings.String.AppendCStr | framework/string.cpp:1032-1045 | NULL changes nothing; otherwise the text becomes the old text followed by the argument; into an empty String the buffer becomes the argument; into a non-empty String the buffer becomes `Appended` of the old buffer, the length grows by the argument's length plus one and the last cell is NUL, even for "" |
| Strings.String.AppendText | framework/string.cpp:1001-1002 | setLen then strcat: the buffer becomes `Appended` of the old buffer, whose length grows by room + 1 |
| Strings.Appended | framework/string.cpp:1001-1002 | the appended buffer has the new length, its text is the old text followed by the appended text, and its last cell is NUL |
| Strings.StrCatResized | framework/string.cpp:1001-1002 | setLen to the old length + room + 1 leaves room for strcat, and strcat then builds exactly the appended buffer |
| Strings.AppendedTail | framework/string.cpp:1001-1002 | after the text a terminator follows; every later cell is the old buffer's cell, or NUL past the old buffer, as setLen's zero padding leaves it |
| Strings.AppendedNulFree | framework/string.cpp:1001-1002 | appending to a NUL-free buffer gives the old buffer, the appended text, then NULs up to the new length |
| Strings.String.AppendChar | framework/string.cpp:1050-1054 | the buffer gains exactly one character at its end; it is in the text only when the old buffer held no NUL |
| Strings.String.Subscript | framework/string.cpp:1161-1219 | both bounds are clamped to the length; start <= end gives the inclusive range read as a C string; start > end gives the empty text |
| Strings.SliceInclusive | framework/string.cpp:1161-1219 | on a buffer without NUL, the range is the characters from start to end inclusive, cut at the length |
| Strings.String.Insert | framework/string.cpp:1226-1247 | inserting at a position within a NUL-free text puts the character there and keeps the rest on both sides; past the length the text is unchanged; the length becomes the position plus one, plus the length of the saved rest and one more when that rest is not empty |
| Strings.InsertedText | framework/string.cpp:1226-1247 | the text insert builds is the old text with the character at the position, or the old text when the position is past the length |
| Strings.String.Remove | framework/string.cpp:1253-1264 | the buffer becomes RemovedBuffer of the old buffer, with the overlapping strcpy taken as a front-to-back copy |
| Strings.RemovedText | framework/string.cpp:1253-1264 | the text becomes what precedes start followed by the text after the n characters removed (fewer when fewer are left) |
| Strings.RemovedRange | framework/string.cpp:1253-1264 | on a buffer without NUL, remove cuts exactly the range [start, start + min(n, len - start)) out of the buffer |
| Strings.StrCpyDownText | framework/string.cpp:1261-1262 | the strcpy down by m, taken as a front-to-back copy where the ranges overlap, leaves the text before start followed by the text from start + m, and shortens the text by at least m |
| Strings.String.LTrim | framework/string.cpp:403-429 | a String shorter than 2 is unchanged; otherwise it becomes its text without its leading spaces |
| Strings.LTrimmedShape | framework/string.cpp:403-429 | ltrim removes only a run of spaces at the start, leaves a text that does not start with a space, and is idempotent |
| Strings.String.RTrim | framework/string.cpp:435-463 | a String shorter than 2 is unchanged; otherwise it becomes its text without its trailing spaces, and index 0 always stays |
| Strings.String.Trim | framework/string.cpp:469-474 | a String shorter than 2 is unchanged; otherwise trim is rtrim followed by ltrim |
| Strings.TrimAllSpaces | framework/string.cpp:435-474 | trimming two or more spaces leaves one space, because rtrim never removes index 0 |
| Strings.TrimStripsBothEnds | framework/string.cpp:403-474 | with a character other than space, trim strips the spaces at both ends and nothing else |
| Strings.TrimmedBetween | framework/string.cpp:403-474 | with a character other than space, trim leaves exactly what lies between the leading and the trailing run of spaces |
| Strings.String.ToUpper | framework/string.cpp:482-514 | a-z become A-Z at indices in [start, end), where an end of 0 or past the length means the length; every other character and the length are kept |
| Strings.UpperRangeIdempotent | framework/string.cpp:482-514 | upper-casing a range twice is upper-casing it once |
| Strings.String.ToLower | framework/string.cpp:522-549 | A-Z become a-z at indices in [start, min(end, len)); every other character and the length are kept |
| Strings.LowerRangeToZero | framework/string.cpp:522-549 | with the default end of 0, toLower changes nothing |
| Strings.LowerAfterUpper | framework/string.cpp:482-549 | case mapping only forgets case: lower-casing the whole text after upper-casing it is lower-casing it |
| Strings.String.IsNum | framework/string.cpp:899-920 | isNum holds exactly when every character is a digit or a dot, and so for the empty String too |
| Strings.String.ValidPath | framework/string.cpp:564-594 | validPath holds exactly when no character is one of `*?<>\|` and a double quote appears only first or last |
| Strings.String.RemoveFilename | framework/string.cpp:599-627 | the text up to and including its last separator at index 1 or later; the whole text when it ends in a separator or has none there |
| Strings.String.LastSeparator | framework/string.cpp:617-624 | the backward search stops at the last separator at index 1 or later, or reports none |
| Strings.String.RemoveDir | framework/string.cpp:632-674 | the text after that separator; empty when the text ends in a separator; the whole text when it has none there |
| Strings.PathSplitJoins | framework/string.cpp:599-674 | with a separator in the text, the two results put together are the text, the first ends in the separator and the second holds none |
| Strings.PathWithoutSeparator | framework/string.cpp:599-674 | without a separator at index 1 or later, both helpers return the text unchanged |
| Strings.String.GetEXT | framework/string.cpp:786-806 | the text after the last dot of the buffer, or empty when there is none |
| Strings.ExtHasNoDot | framework/string.cpp:786-806 | the extension getEXT returns contains no dot |
| Strings.ExtAfterDot | framework/string.cpp:786-806 | getEXT of a text ending in a dot and a dot-free extension is that extension |
| Strings.String.ReplaceEXT | framework/string.cpp:682-780 | false, and nothing changed, for NULL or an empty String; otherwise true, and the text becomes ExtReplaced of the old text |
| Strings.LastDot | framework/string.cpp:728-734 | the backward search stops at the last dot at index 1 or later, or reports none |
| Strings.ReplacedExtReadBack | framework/string.cpp:682-806 | after replaceEXT with a dot-free extension, given with or without its leading dot, getEXT reads that extension back |
| Strings.CatText | framework/string.cpp:767-768 | strcat of the extension onto the copy gives the copied text followed by the extension |
| Strings.ReplaceWithEmptyExt | framework/string.cpp:728-760 | with the empty extension replaceEXT leaves the text as it was, whether or not a dot is found |
| Strings.String.FindCString | framework/string.cpp:1075-1084 | findString holds exactly when the String is not empty, the needle is neither NULL nor "", and the needle occurs in the text |
| Strings.String.FindString | framework/string.cpp:1060-1069 | the same test for a String needle, on the needle's text |
| LibC.StrCatText | framework/string.cpp:1001-1002 | strcat into a buffer with room extends its C string by exactly the appended text |
| LibC.StrCmpTransitive | framework/string.cpp:258-269 | strcmp orders texts transitively |
| Lexing.Lexer.constructor | framework/lexer.cpp:27-29 | a new lexer has no tokens |
| Lexing.Lexer.FromText | framework/lexer.cpp:31-34 | a lexer built from a text holds exactly the tokens of that text |
| Lexing.Lexer.Clear | framework/lexer.cpp:41-44 | clear leaves no tokens |
| Lexing.Lexer.Parse | framework/lexer.cpp:47-69 | parse appends the tokens of the text, in order, after the tokens already held |
| Lexing.ScanStep | framework/lexer.cpp:53-67 | one character of the loop keeps the invariant: the tokens pushed are those of the text read so far, and an open token starts after a separator and holds none |
| Lexing.Lexer.GetToken | framework/lexer.cpp:71-84 | the token at the index, or the empty text at or past the number of tokens |
| Lexing.Lexer.GetNumTokens | framework/lexer.cpp:86-89 | the number of tokens held |
| Lexing.Lexer.FindExact | framework/lexer.cpp:91-100 | the least index whose token equals the needle up to ASCII case, or -1 when there is none |
| Lexing.Lexer.FindPartial | framework/lexer.cpp:102-111 | the least index whose token contains the needle (case-sensitive), or -1 when there is none or the needle is empty |
| Lexing.TokenStringContains | framework/lexer.cpp:106 | findString on a token is the containment test on the token's text |
| Lexing.TokensAreWords | framework/lexer.cpp:53-66 | no token is empty, and no token holds space, tab, CR, LF or NUL |
| Lexing.TokensCoverText | framework/lexer.cpp:51-68 | the tokens put together are the text with every separator removed |
| Lexing.NoTokens | framework/lexer.cpp:51-68 | a text has no tokens exactly when it holds nothing but separators |
| Lexing.TokenizeTrailingSeparator | framework/lexer.cpp:51-54 | a separator at the end adds no token, so reading the terminator as a separator loses nothing |
| Lexing.TokenizeAppend | framework/lexer.cpp:47-69 | a text that ends in a separator tokenizes apart from what follows it |
| Lexing.JoinTokenize | framework/lexer.cpp:47-69 | words joined by single spaces tokenize back to the same words |
| Lexing.TokenizeIdempotent | framework/lexer.cpp:47-69 | the tokens of a text joined by spaces tokenize to the same tokens |
| Lexing.Lexer.Span | framework/lexer.h:54 | the tokens from first to last inclusive, cut at the last token, and none when first is past last or past the tokens |
| Lexing.Lexer.ToString | framework/lexer.h:54 | the text is empty when no token is covered; otherwise it starts with the first covered token, ends with the last, and is the first covered token, one space and the text of the rest when more than one is covered |
| Lexing.ToStringReadsBack | framework/lexer.h:54 | toString of a range tokenizes back to exactly the tokens of the range |
| Lexing.ParsedTokensAreWords | framework/lexer.cpp:31-34 | a lexer built from a text holds only words |
| Sentences.SentencePart.Cleared | framework/sentence.cpp:367-373 | clear resets the function to unknown and empties interrogative, linking verb, subject and predicate, keeping command and subject verb |
| Sentences.FunctionNamesDistinct | framework/sentence.cpp:375-399 | two parts have the same function name exactly when they have the same function |
| Sentences.InWordList | framework/sentence.cpp:108-115 | the token is in the list exactly when it equals some entry up to ASCII case |
| Sentences.Tag | framework/sentence.cpp:149-178 | a token is tagged by the first table it is in, in the order interrogative, auxiliary, modal, linking, misc, command, punctuation, quote, else Other |
| Sentences.TagToken | framework/sentence.cpp:149-177 | the tag of token i, read through a String, is the tag of its text |
| Sentences.TagTokens | framework/sentence.cpp:146-178 | the tag array has 1024 entries, and its first entries are the tags of the tokens |
| Sentences.BeIsAuxiliary | framework/sentence.cpp:153-166 | "be" is tagged auxiliary, so its entry among the command words never applies |
| Sentences.ClassifyRange | framework/sentence.cpp:149-178 | no token is tagged none or misc (the misc list is empty), and a token is Other exactly when it is in no table |
| Sentences.QuestionMarkIsPunctuation | framework/sentence.cpp:168-170 | "?" is tagged punctuation |
| Sentences.PeriodIsPunctuation | framework/sentence.cpp:168-170 | "." is tagged punctuation |
| Sentences.Boundary | framework/sentence.cpp:187-204 | after a run of punctuation the part is pushed when its function is known, then cleared, and the next part starts at this token |
| Sentences.ReadQuestionWord | framework/sentence.cpp:206-228 | an interrogative word makes a question, exchanges subject and predicate when the subject is set (with the exchange corrected, see Findings), and reads into the empty slot |
| Sentences.QuestionWordSwapsSubject | framework/sentence.cpp:215-227 | with the exchange corrected, subject and predicate are swapped, and reading goes to the subject exactly when the old predicate was empty |
| Sentences.AsWrittenSwapDuplicatesSubject | framework/sentence.cpp:219-221 | as written, with a subject and no predicate, the subject stays and is copied to the predicate |
| Sentences.ReadVerb | framework/sentence.cpp:232-312 | a verb at the start of a part makes a command or a question; right after an interrogative or command word it is the subject verb; otherwise it is the first linking verb or is skipped |
| Sentences.ReadLink | framework/sentence.cpp:264-311 | a first linking verb fixes an unknown function and takes the run of Other tokens just before it, quotes skipped, as the subject |
| Sentences.SubjectStart | framework/sentence.cpp:285-295 | the backward loop stops where the specification's search does |
| Sentences.BackSearchRun | framework/sentence.cpp:285-295 | the search back from the verb stops at the first token of the run of Other tokens before it |
| Sentences.LinkAfterWords | framework/sentence.cpp:264-311 | a verb after plain words at the start of a part makes a statement with those words, joined by spaces, as subject, and then reads the predicate |
| Sentences.ReadPunctuation | framework/sentence.cpp:313-329 | punctuation and quotes stop reading; "?" makes a question and "." turns a question into a statement |
| Sentences.ReadWord | framework/sentence.cpp:330-348 | any other word is appended, after a space, to the subject or the predicate being read; "you" or "your" ends the subject |
| Sentences.RunAbsorbs | framework/sentence.cpp:330-347 | a run of plain words other than "you" and "your" is appended word by word to whatever is being read |
| Sentences.ReadToken | framework/sentence.cpp:206-348 | the body of the loop after the boundary test reads the token by its tag, as Step specifies with the exchange of subject and predicate corrected |
| Sentences.Turn | framework/sentence.cpp:185-349 | one turn of the loop carries the loop state to that of one more token, with the exchange of subject and predicate corrected |
| Sentences.Sentence.ReadParts | framework/sentence.cpp:180-364 | the reading loop pushes exactly the parts the specification gives for the tokens and tags, with the exchange of subject and predicate corrected |
| Sentences.Sentence.Parse | framework/sentence.cpp:129-365 | parse appends to the parts exactly the parts of the tokens of the text, with the exchange of subject and predicate corrected |
| Sentences.Sentence.constructor | framework/sentence.cpp:117-118 | a new sentence has no parts |
| Sentences.Sentence.FromText | framework/sentence.cpp:120-122 | a sentence built from a text holds exactly its parts, with the exchange of subject and predicate corrected |
| Sentences.Sentence.Clear | framework/sentence.cpp:124-127 | clear leaves no parts |
| Sentences.StepParts | framework/sentence.cpp:187-204 | only the boundary test pushes parts |
| Sentences.PartsAreKnown | framework/sentence.cpp:198-200 | every part pushed has a known sentence function, at a boundary and at the end |
| Sentences.PlainWordsMakeNoPart | framework/sentence.cpp:330-364 | a text of words in no table makes no part at all |
| Sentences.EndsInQuestion | framework/sentence.cpp:317-321 | a text whose last token is "?" ends in a question part |
| Sentences.EndsInPeriod | framework/sentence.cpp:325-329 | a text whose last token is "." leaves no question open |
| Sentences.StatementShape | framework/sentence.h:36-45 | "Pizza is good ." and "My name is Zack .": plain words, a verb, plain words and "." make one statement with that subject, linking verb and predicate; with "?" it is a question |
| Sentences.QuestionVerbShape | framework/sentence.h:47-48 | "What is pizza ?": one question with that interrogative, subject verb and subject; a final "." makes it a statement |
| Sentences.QuestionLinkShape | framework/sentence.h:50-51 | "What pizza is good ?": one question with that interrogative, subject, linking verb and predicate; a final "." makes it a statement |
| Sentences.CommandShape | framework/sentence.h:55-59 | "Go get a pizza ." and "Go to the pizza store .": one command with that command, subject verb and subject; a final "?" makes it a question |
| Sentences.InterrogativeAfterLinkShape | framework/sentence.cpp:213-227 | "A cat has how many legs ?" with the exchange corrected: the words after the interrogative are the subject and those before the verb the predicate |
| Sentences.InterrogativeAfterLinkShapeAsWritten | framework/sentence.cpp:219-221 | the same sentence as written: the subject keeps the words before the verb, and the predicate repeats them before the words after the interrogative |
| SentenceExamples.PartsOfJoinedWords | framework/lexer.cpp:47-69 | a text of words joined by single spaces is lexed back into those words, so it parses to their parts |
| SentenceExamples.PizzaIsGood | framework/sentence.h:36-38 | the tokens of "Pizza is good ." parse to exactly one statement: subject "Pizza", linking verb "is", predicate "good" |
| SentenceExamples.MyNameIsZack | framework/sentence.h:40-41 | the tokens of "My name is Zack ." parse to exactly one statement: subject "My name", linking verb "is", predicate "Zack" |
| SentenceExamples.PizzaIsGoodQuestion | framework/sentence.h:43-45 | the tokens of "Pizza is good ?" parse to exactly one question with the same subject, linking verb and predicate |
| SentenceExamples.WhatIsPizza | framework/sentence.h:47-48 | the tokens of "What is pizza ?" parse to exactly one question: interrogative "What", subject verb "is", subject "pizza" |
| SentenceExamples.WhatPizzaIsGood | framework/sentence.h:50-51 | the tokens of "What pizza is good ?" parse to exactly one question: interrogative "What", subject "pizza", linking verb "is", predicate "good" |
| SentenceExamples.GoGetAPizza | framework/sentence.h:55-56 | the tokens of "Go get a pizza ." parse to exactly one command: command "Go", subject verb "get", subject "a pizza" |
| SentenceExamples.GoToThePizzaStore | framework/sentence.h:58-59 | the tokens of "Go to the pizza store ." parse to exactly one command: command "Go", subject verb "to", subject "the pizza store" |
| SentenceExamples.ACatHasHowManyLegs | framework/sentence.cpp:213-227 | with the exchange corrected, "A cat has how many legs ?" is one question: interrogative "how", subject "many legs", linking verb "has", predicate "A cat" |
| SentenceExamples.ACatHasHowManyLegsAsWritten | framework/sentence.cpp:219-221 | as written, the same sentence keeps the subject "A cat" and gets the predicate "A cat many legs" |
| WordTypes.Lookup | framework/wordtypes.cpp:52-56 | the table loop breaks at the first entry equal to the token up to case, or runs to the table's end exactly when there is none |
| WordTypes.UpdateFlags | framework/wordtypes.cpp:52-82 | one token can clear Filler and can set Cancel, False and True, each by its own table |
| WordTypes.WordType | framework/wordtypes.cpp:43-86 | Filler holds exactly when every token is a filler word; Cancel, False and True hold exactly when some token is in their table |
| WordTypes.TypeOfSnoc | framework/wordtypes.cpp:51-83 | the flags of the tokens with one more token are the old flags updated by that token |
| WordTypes.NoTokensIsFiller | framework/wordtypes.cpp:48-51 | a text with no tokens is Filler and nothing else |
| WordTypes.NeverMindNeverMatches | framework/wordtypes.cpp:31-33 | no token equals "never mind", whatever its case, as a token holds no space |
| WordTypes.CancelFromWords | framework/wordtypes.cpp:63-68 | the Cancel flag comes only from "nothing", "nevermind" and "nm" |
| WordTypes.MmIsFillerAndTrue | framework/wordtypes.cpp:27-41 | "mm" alone sets Filler and True and nothing else, so the flags are independent |
| WordTypes.FillerIsSticky | framework/wordtypes.cpp:58-61 | once a token is not a filler, no later token makes the text Filler again |
| WordTypes.SetFlagsStay | framework/wordtypes.cpp:63-82 | Cancel, False and True, once set, stay set |
| Personas.Persona.constructor | framework/persona.cpp:29-35 | a new persona is named "unknown", has no gender, no pending tokens and has said nothing |
| Personas.Persona.SetName | framework/persona.cpp:37-40 | the name becomes the given text, except that an empty name changes nothing; nothing else changes |
| Personas.Persona.SetGender | framework/persona.cpp:42-45 | the gender becomes the given one; nothing else changes |
| Personas.Persona.Tell | framework/persona.cpp:47-51 | the target's pending tokens gain the tokens of the message, after those it held |
| Personas.Persona.Say | framework/persona.cpp:53-56 | the output gains exactly the line "name> message" followed by a newline |
| Personas.Persona.Think | framework/persona.cpp:65-104 | with no pending tokens nothing changes; otherwise the reply is said and the pending tokens are cleared |
| Personas.AsksForName | framework/persona.cpp:88 | the test holds exactly when some token contains "name" and some token contains "?" |
| Personas.ReplyText | framework/persona.cpp:87-101 | the reply built is "My name is " + name + "." for a question about the name, else "What does '" + first token + "' mean?" |
| Personas.Concat | framework/persona.cpp:90-92 | a String made from one text, with a second text and a third appended, holds the three texts in order |
| Personas.ReplyWhenPending | framework/persona.cpp:83-85 | think says something exactly when tokens are pending |
| Personas.NameReplyExactly | framework/persona.cpp:88-101 | the name reply is given exactly for a question about the name, since the two replies differ |
| Personas.MeaningReplyQuotesFirst | framework/persona.cpp:97-100 | the other reply quotes the first pending token, and it can be read back from the reply |
| Personas.NameQuestionGetsName | framework/persona.cpp:88-93 | a message of words, one containing "name" and one containing "?", told to a persona with nothing pending, gets the name reply |
| Conversations.Conversation.AddPersona | framework/conversation.cpp:30-54 | a persona already present changes nothing; a new one is appended and every other persona, in order, is notified; the list stays without duplicates |
| Conversations.Find | framework/conversation.cpp:35-41 | the scan finds the persona exactly when it is in the list |
| Conversations.ConnectAll | framework/conversation.cpp:47-53 | the notify loop calls personaConnect on each persona other than the newcomer, in list order |
| Conversations.OthersMembers | framework/conversation.cpp:47-53 | the loops visit exactly the personas of the list other than the skipped one |
| Conversations.NewcomerNotNotified | framework/conversation.cpp:47-53 | the newcomer is never told of its own arrival, and everyone already present is, in order |
| Conversations.OthersNoDuplicates | framework/conversation.cpp:47-53 | on a list without duplicates each persona is visited once |
| Conversations.Conversation.RemovePersona | framework/conversation.cpp:56-66 | the first entry equal to the persona is erased; no notifications happen; a list without duplicates keeps none and no longer holds the persona |
| Conversations.RemoveFirstCount | framework/conversation.cpp:56-66 | removing takes out one occurrence of the persona when there is one, and nothing else |
| Conversations.RemoveAbsent | framework/conversation.cpp:58-65 | removing an absent persona leaves the list unchanged |
| Conversations.RemoveIsOthers | framework/conversation.cpp:56-66 | on a list without duplicates, removing leaves exactly the other personas, in order |
| Conversations.RemoveKeepsNoDuplicates | framework/conversation.cpp:56-66 | removing keeps a list without duplicates, and the persona is then gone |
| Conversations.Conversation.AddMessage | framework/conversation.cpp:68-80 | the line "name> message" is printed, then every persona other than the speaker receives the message in list order; the list is unchanged |
| Conversations.ReceiveAll | framework/conversation.cpp:73-79 | the loop calls receiveMessage on each persona other than the speaker, in list order |
| Conversations.OthersAbsent | framework/conversation.cpp:73-79 | when the speaker is not in the list, every persona receives the message |

## Left out

- Memory management (`new[]`/`delete[]`, destructors) is not modelled. A String's buffer is a sequence, and allocation cannot fail.
- Memory that `new char[]` leaves uninitialised is taken as NUL. This matters only for `rtrim` on a buffer with an embedded NUL.
- Bytes are characters: the byte -52 that `validString` refuses is the character U+00CC.
- `fileExists` (file system), `replaceENV` (environment), `snprintf` and `append_snprintf` (varargs formatting) are not modelled.
- `replaceString` is not modelled. Its loop bound grows with every match and underflows when the needle is longer than the text, so it reads past its buffer and has no defined result.
- `Lexer::toString` is part of `framework/lexer.h`, whose body is not part of this model. `Lexing.Lexer.ToString` assumes it joins the tokens with single spaces.
- Sentences.Sentence.Parse: requires at most 1024 tokens, since more would write past the fixed `tokenTypes[1024]` array.
- The `printf` warnings of `Sentence::parse` change no state and are left out. So are the `#if 0` blocks of `Sentence::parse` and `Persona::think`.
- Persona's `lastUpdate`, `std::clock` and `diffclock` (time and floating point) are left out.
- `printf` in `say` and `addMessage` is modelled as a log of lines (`output`, `Print` events).
- `personaConnect`, `receiveMessage` and `getName` are called by `framework/conversation.cpp` but declared in none of the headers of this model: `framework/persona.h` has none of them, so that file was written against another version of the header. The two callbacks are recorded as events in the order they are made. `getName` is assumed to return the persona's name; this is an assumption.
- Personas.Persona: `tokens` is a value member of each persona in the source, but a reference to a `Lexer` in the model. The model does not rule out two personas sharing one `Lexer`, in which case `Tell` or `Think` on one would change the other's tokens.
- The `assert(persona != NULL)` of `addPersona` holds by the non-null type of its argument.
- The callbacks are taken not to change the conversation, so the persona list is fixed while a loop runs over it.
- Strings.String.Subscript: requires a non-empty String. On the empty String `subscript` reads the NULL buffer, so the source has no defined result there.
- Strings.String.Insert: requires a non-empty String. It calls `subscript`, which reads the NULL buffer of an empty String, so the source has no defined result there.
- Strings.String.Append: requires that the argument is not the String itself. Appending a String to itself reallocates the buffer in `setLen` and then lets `strcat` copy between overlapping buffers, so the source has no defined result there.
- Strings.String.Remove: `strcpy` between overlapping ranges (framework/string.cpp:1262) has no defined result in C; the model takes the result of a front-to-back copy (`Strings.StrCpyDown`).
- Strings.String.SetDataFrom: requires that the argument is not the String itself. Assigning a String to itself makes `setData` copy the buffer onto itself with `strcpy`, or read it after `delete[]` when it holds a NUL before its end, so the source has no defined result there. No caller in this model assigns a String to itself.
- Strings.String.SetDataFromPtr: requires that the argument is not the String itself, for the same reason as `SetDataFrom`.
- Strings.String.AppendPtr: requires that the argument is not the String itself, for the same reason as `Append`; the source has no defined result there.
- LibC.StrCmp: returns exactly -1, 0 or 1. C promises only the sign of `strcmp`, so `compareTo` and `icompareTo` are modelled with one of the results C allows.
- WordTypes.WordType: the bit mask of word types is a record of four flags (`WordFlags`), one per type, rather than an integer.
- Sentences.ReadQuestionWord: performs the corrected exchange of subject and predicate (see Findings), not the no-op assignment the code makes.
- Sentences.ReadToken: dispatches to the corrected `ReadQuestionWord`, so it follows the corrected parse.
- Sentences.Turn: carries the corrected loop state, not the loop state as written.
- Sentences.Sentence.ReadParts: pushes the parts of the corrected parse, which differ from the code as written when an interrogative word follows a subject.
- Sentences.Sentence.Parse: gives the corrected parts; the parts the code as written makes are `Sentences.SentencePartsAsWritten`.
- Sentences.Sentence.FromText: holds the corrected parts, as `Parse` gives them.
- The parser of the model uses the corrected exchange of subject and predicate (see Findings). The parse as written is `Sentences.SentencePartsAsWritten`.

## Findings

| source | as written | input that shows it | evidently intended | confidence | as-written member | corrected member |
|---|---|---|---|---|---|---|
| framework/sentence.cpp:219-221 | the subject is assigned from a copy of the empty predicate; assigning an empty String passes NULL to setData, which changes nothing, so the subject stays and the predicate repeats it | "A cat has how many legs ?" parses to the subject "A cat" and the predicate "A cat many legs" | subject and predicate are exchanged: subject "many legs", predicate "A cat", as the comment at sentence.cpp:214 describes | not executed | SentenceExamples.ACatHasHowManyLegsAsWritten | SentenceExamples.ACatHasHowManyLegs |
