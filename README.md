# Assembler for the educational virtual machine: translation stage, in Dafny

This project models the first stage of the assembler in `3.1.py`: the
`Assembler` class turns a JSON program (a list of records) into the
intermediate representation of `(A, B, C)` triples for a four-instruction
machine, and renders that representation as `A=.. B=.. C=..` lines for test
mode.

What is modelled:

- **JSON input** (`json.dfy`, module `JsonValue`). The decoded document is a
  `Json` value (null, bool, integer, string, array, object as a dictionary
  from string keys). The decoder is outside the model. Its outcome is a
  `Decoded` value: either a diagnostic (`Malformed`) or the value (`Document`).
- **Opcode table and per-record translation** (`assembly.dfy`, module
  `Assembly`). `Opcode` is the table: `load_const`→39 with B=`const` and
  C=`addr`; `read_mem`→30, `write_mem`→22 and `popcnt`→61, each with
  B=`src` and C=`dst`. `ParseCommand` follows `parse_command` branch by
  branch. There is one error variant per raise site, and each record error
  carries the record's position. The op value is normalised the way
  `str(op).lower()` matters for matching: a string is lower-cased, and any
  other value stays as it is, since its text can never spell an opcode name.
- **The loop of `parse`**. `Assembler.Parse` is a method of the class
  `Assembler`, whose field `instructions` it resets and appends to in a `for`
  loop over the records, exactly as the source does. It is proved against
  the function `TranslatePrefix`, which says what the first `n` records
  translate to. `Assemble` is the whole pipeline as a function of the decoded
  document.
- **Test rendering**. `Render` / `Assembler.TestOutput` give one line per
  instruction, joined by newlines, with no trailing newline. `A` is written
  in decimal (`IntText`). The text of B and C comes from a parameter `show`,
  which stands for Python's `str()` of the operand value as far as a
  function of the value can: it sees objects without their key order.
- **Properties** (`properties.dfy`, module `AssemblyProperties`):
  - success if and only if every non-comment record parses on its own;
  - on success, exactly one instruction per non-comment record, in input order;
  - on failure, the error is that of the first failing record, and its
    position counts every record, comments included;
  - a leading comment shifts every error position by one;
  - an object with `_comment` plus other keys is parsed as a command;
  - opcode names are matched case-insensitively, and a non-string op is
    always unknown;
  - the rendering splits back into its lines.
- **Worked programs** (`examples.dfy`, module `AssemblyExamples`): the
  documented example programs and a two-line rendering.

The plain-text module `Text` (`text.dfy`) holds ASCII lower-casing, decimal
text of integers with its round trip, and newline joining and splitting
with their round trips.

## Model

| member | source | states |
|---|---|---|
| `Text.AsciiLower` | 3.1.py:50 | the result has the input's length, no upper-case ASCII letter, and each character is the lower-case form of the input's |
| `Text.IntText` | 3.1.py:77 | decimal text of A: non-empty, no newline, a leading '-' exactly for negative numbers, digits otherwise |
| `Text.IntTextRoundTrip` | 3.1.py:77 | reading back the decimal text of any integer gives that integer |
| `Text.JoinLines` | 3.1.py:76 | joining on newlines: a non-empty list's result starts with its first line |
| `Text.SplitJoin` | 3.1.py:76-78 | splitting the join of newline-free lines on "\n" gives back exactly those lines |
| `Assembly.NormalizedOp` | 3.1.py:50 | the normalised op spells an opcode's name exactly when the op is a string whose ASCII lower-case form is that name; string ops equal up to case normalise to the same value |
| `Assembly.OpcodeOf` | 3.1.py:6-10 | the opcode found is the one whose name the normalised op spells; no opcode means the op spells none of the four names |
| `Assembly.ParseCommand` | 3.1.py:42-72 | every error it raises is a record error carrying the position it was given |
| `Assembly.ParseCommandFollowsTable` | 3.1.py:42-72 | a non-object gives NotAnObject, a missing op gives MissingOp, an op naming no opcode gives UnknownOpcode with the normalised op; an op naming an opcode gives that opcode's code with its B and C fields taken unchanged when both keys are present, and MissingOperands for that opcode otherwise |
| `Assembly.IsComment` | 3.1.py:35 | the skip test: the record is an object that holds the key "_comment" and has exactly one key |
| `Assembly.CommentKeys` | 3.1.py:34-36 | a record is skipped exactly when it is an object whose key set is exactly {"_comment"} |
| `Assembly.TranslatePrefix` | 3.1.py:31-38 | after n records: at most n instructions, or an error at a non-comment record among the first n |
| `Assembly.Translate` | 3.1.py:31-38 | the whole loop over all records; an error it reports names a record inside the list |
| `Assembly.Assemble` | 3.1.py:21-40 | a decode failure gives MalformedDocument with its diagnostic; a non-list gives InvalidProgramShape before any record is examined; a record error implies the document was a list |
| `Assembly.ErrorSticks` | 3.1.py:33-38 | once a prefix fails, every longer prefix fails with the same error (the first error aborts the run) |
| `Assembly.Line` | 3.1.py:77 | the line of one instruction: starts with "A=" followed by A's decimal text, and holds no newline unless the operands' text does |
| `Assembly.Render` | 3.1.py:74-78 | the rendering is empty exactly for an empty program, and otherwise starts with "A=" |
| `Assembly.Assembler.constructor` | 3.1.py:18-19 | a new assembler holds no instructions |
| `Assembly.Assembler.Parse` | 3.1.py:21-40 | returns Assemble of the document; on success the field holds the result; a decode or shape error leaves the field unchanged; an error at record k leaves the field holding the translation of the records before k |
| `Assembly.Assembler.TestOutput` | 3.1.py:74-78 | the test output of the stored instructions is their rendering, and is empty exactly when none are stored |
| `AssemblyProperties.CommentsBefore` | 3.1.py:34-36 | the number of comment records among the first n is at most n |
| `AssemblyProperties.CommandPositions` | 3.1.py:33-38 | the positions of the records that become instructions: records minus comments in number, each below n |
| `AssemblyProperties.CommandPositionsAreCommands` | 3.1.py:34-38 | every listed position holds a non-comment record |
| `AssemblyProperties.CommandPositionsAscending` | 3.1.py:33-38 | the listed positions are strictly ascending: input order, no record twice |
| `AssemblyProperties.CommandPositionsComplete` | 3.1.py:34-38 | every non-comment record has its position listed |
| `AssemblyProperties.PrefixOnly` | 3.1.py:31-38 | what the first n records translate to depends on those records only |
| `AssemblyProperties.Append` | 3.1.py:33-38 | appending a record extends the translation by that record's effect: nothing for a comment, its instruction, or its error |
| `AssemblyProperties.TranslateOkIff` | 3.1.py:31-38 | translation succeeds if and only if every non-comment record parses on its own |
| `AssemblyProperties.TranslateOkLength` | 3.1.py:31-40 | on success the number of instructions equals the number of command positions, which is the number of records minus the comments |
| `AssemblyProperties.TranslateOkContents` | 3.1.py:31-40 | on success the i-th instruction is the translation of the record at the i-th command position, at that position |
| `AssemblyProperties.TranslateCount` | 3.1.py:31-40 | on success the output has as many instructions as there are records minus comment records |
| `AssemblyProperties.FailingPrefix` | 3.1.py:33-38 | a failing translation failed at the reported record, and the records before it translated successfully |
| `AssemblyProperties.FirstErrorReported` | 3.1.py:33-38 | a failure reports a non-comment record at a position counted over all records, the error is that record's own, and every command before it parses |
| `AssemblyProperties.FirstFailureDecides` | 3.1.py:33-38 | conversely, the first failing command record decides the error of every run that reaches it |
| `AssemblyProperties.ParseCommandShift` | 3.1.py:42-72 | moving a record further along changes only the position its error reports |
| `AssemblyProperties.LeadingCommentShifts` | 3.1.py:33-38 | a comment in front leaves the instructions unchanged and moves every error position up by one |
| `AssemblyProperties.CommentWithOtherKeys` | 3.1.py:35-38 | an object with "_comment" and any other key is not skipped: it is parsed as a command |
| `AssemblyProperties.OpcodeOfString` | 3.1.py:50-67 | a string op names an opcode if and only if its lower-case form is that opcode's name |
| `AssemblyProperties.NonStringOpUnknown` | 3.1.py:50-72 | an op that is not a string always ends in the unknown-opcode error |
| `AssemblyProperties.CaseInsensitive` | 3.1.py:50 | op strings equal up to ASCII case give identical translations, errors included |
| `AssemblyProperties.RenderLines` | 3.1.py:76-78 | when no operand text holds a newline, the test output splits into exactly one line "A=.. B=.. C=.." per instruction, in order |
| `AssemblyExamples.LoadConstProgram` | 3.1.py:52-55 | one load_const record with const 42 and addr 0 gives the triple (39, 42, 0) |
| `AssemblyExamples.ReadMemThenPopcnt` | 3.1.py:57-70 | read_mem then popcnt give (30, 0, 1) then (61, 1, 2) |
| `AssemblyExamples.CommentThenWriteMem` | 3.1.py:33-38 | a comment followed by write_mem gives the single triple (22, 2, 3) |
| `AssemblyExamples.CommentOnly` | 3.1.py:34-36 | a program of one comment gives no instructions |
| `AssemblyExamples.UpperCaseOpcode` | 3.1.py:50-55 | "LOAD_CONST" is read as load_const |
| `AssemblyExamples.ObjectIsNotAProgram` | 3.1.py:28-29 | an object at the top level is rejected as not a list |
| `AssemblyExamples.MissingDestination` | 3.1.py:67-69 | popcnt without dst fails with the missing-operands error at position 0 |
| `AssemblyExamples.BogusOpcodeAfterComment` | 3.1.py:72 | an unknown op after a comment fails at position 1, naming the lower-cased op |
| `AssemblyExamples.NullOperandIsPresent` | 3.1.py:58-60 | operand keys are checked by presence: null and false operands pass through unchanged |
| `AssemblyExamples.RenderTwoLines` | 3.1.py:76-78 | two instructions render as two lines joined by one newline, with no trailing newline |

## Left out

- Decoding the document text (`json.loads`, 3.1.py:23-26) is not modelled. It is a foreign library parser. Its outcome is the `Decoded` input, and a decode failure becomes `MalformedDocument` with the diagnostic it came with.
- `main` (3.1.py:81-114) is left out: argument handling, file reading and writing, printing and exit codes are I/O plumbing.
- Writing the instructions as indented JSON (3.1.py:111) is a library serialiser and is left out.
- JSON numbers that are not integers are not modelled. Operands are passed through whatever they are, and such an op could never spell an opcode name (`str(1.0)` is "1.0").
- Assembly.Render: Python's `str()` of an operand value is the parameter `show`. The model does not fix it, except that the worked example uses decimal text for integers. Because `show` is a function of the value, and an object value has no key order, it cannot reproduce the text `str()` gives an object-valued operand.
- Assembly.ParseCommand: lower-casing is ASCII only, so for matching the four names it agrees with `str.lower()`. No non-ASCII character lower-cases to an ASCII letter that occurs in them alone: the Kelvin sign becomes 'k', and no name has a 'k'; 'İ' becomes 'i' followed by a combining dot, and that extra character keeps the string from ever equalling a name. The unknown-opcode error keeps non-ASCII capitals as they are, where the message text of the source would lower-case them.
- Assembly.ParseCommand: the unknown-opcode error carries the op value itself when it is not a string. The source's message writes it with `str(...).lower()`.
- The error messages themselves (Russian text) are not reproduced. Each error variant carries what its message reports: its position, plus the opcode or the normalised op.
- Assembly.Assembler.Parse: it returns the list it stores. The model returns a value equal to the stored sequence, so the sharing between the returned list and the field is not captured.
- Key order within a JSON object is not modelled. It matters only to the text `str()` gives an object-valued operand in the test output (3.1.py:77); `show` is a function of the unordered value, so it cannot reproduce that text.
- The missing-operands error does not list which fields are missing. The source's message names both fields the opcode requires, whichever of them is absent, so `MissingOperands` carries only the opcode.
